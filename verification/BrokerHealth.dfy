/** Broker failover on consecutive health-check failures, alone and together with the shared trading state. */
module BrokerHealth {
  import opened Common
  import RuntimeState

  datatype BrokerMode = PRIMARY | FAILOVER

  /**
   One health result. `synced` says whether a return to the primary would pass at that moment:
   there is no ledger to compare with, or the broker's positions can be listed.
   */
  datatype Health = Health(ok: bool, synced: bool)

  datatype Monitor = Monitor(failures: nat, mode: BrokerMode)

  /** Whether this result triggers a failover. */
  predicate Triggers(m: Monitor, limit: int, r: Health) {
    !r.ok && m.failures + 1 >= limit && m.mode == PRIMARY
  }

  function Handle(m: Monitor, limit: int, r: Health): Monitor {
    if r.ok then
      Monitor(0, if m.mode == FAILOVER && r.synced then PRIMARY else m.mode)
    else
      Monitor(m.failures + 1, if Triggers(m, limit, r) then FAILOVER else m.mode)
  }

  function HandleAll(limit: int, history: seq<Health>): Monitor {
    if history == [] then Monitor(0, PRIMARY)
    else Handle(HandleAll(limit, history[..|history| - 1]), limit, history[|history| - 1])
  }

  class BrokerHealthMonitor {
    const maxFailures: int
    const hasLedger: bool
    var consecutiveFailures: nat
    var mode: BrokerMode
    /** The mode recorded in Redis, where an earlier process may have left another. */
    var recordedMode: Option<BrokerMode>

    constructor (maxFailures: int, hasLedger: bool, left: Option<BrokerMode>)
      ensures this.maxFailures == maxFailures && this.hasLedger == hasLedger
      ensures State() == Monitor(0, PRIMARY) && recordedMode == left
    {
      this.maxFailures, this.hasLedger := maxFailures, hasLedger;
      consecutiveFailures, mode, recordedMode := 0, PRIMARY, left;
    }

    function State(): Monitor
      reads this
    {
      Monitor(consecutiveFailures, mode)
    }

    /**
     Take one result; the answer says whether CLOSE_ONLY is to be forced on the trading state. The
     recorded mode follows every change of mode, and nothing else touches it.
     */
    method HandleResult(ok: bool, positionsListed: bool) returns (forceCloseOnly: bool)
      modifies this
      ensures var r := Health(ok, !hasLedger || positionsListed);
              && State() == Handle(old(State()), maxFailures, r)
              && forceCloseOnly == (old(mode) == PRIMARY && mode == FAILOVER)
      ensures recordedMode == if mode != old(mode) then Some(mode) else old(recordedMode)
    {
      forceCloseOnly := false;
      if ok {
        consecutiveFailures := 0;
        if mode == FAILOVER {
          AttemptReturnToPrimary(positionsListed);
        }
        return;
      }
      consecutiveFailures := consecutiveFailures + 1;
      if consecutiveFailures >= maxFailures && mode == PRIMARY {
        forceCloseOnly := true;
        recordedMode := Some(FAILOVER);
        mode := FAILOVER;
      }
    }

    method AttemptReturnToPrimary(positionsListed: bool)
      requires mode == FAILOVER && consecutiveFailures == 0
      modifies this
      ensures consecutiveFailures == 0
      ensures if !hasLedger || positionsListed then mode == PRIMARY && recordedMode == Some(PRIMARY)
              else mode == FAILOVER && recordedMode == old(recordedMode)
    {
      if !hasLedger || positionsListed {
        mode := PRIMARY;
        recordedMode := Some(PRIMARY);
        consecutiveFailures := 0;
      }
    }
  }

  /** The recorded mode after a history of results, if an earlier process left `left`. */
  function Recorded(limit: int, left: Option<BrokerMode>, history: seq<Health>): Option<BrokerMode> {
    if history == [] then left
    else
      var init := history[..|history| - 1];
      var before, after := HandleAll(limit, init).mode, HandleAll(limit, history).mode;
      if after != before then Some(after) else Recorded(limit, left, init)
  }

  /** The mode has changed at some point of the history. */
  predicate Changed(limit: int, history: seq<Health>) {
    exists k :: 0 <= k <= |history| && HandleAll(limit, history[..k]).mode == FAILOVER
  }

  /**
   The record is right exactly if the monitor has failed over at some time or the record was right to
   begin with: a process that restarts during a failover leaves FAILOVER standing until then.
   */
  lemma {:induction false} RecordIsRightIff(limit: int, left: Option<BrokerMode>, history: seq<Health>)
    ensures Recorded(limit, left, history) == Some(HandleAll(limit, history).mode) <==>
            Changed(limit, history) || left == Some(PRIMARY)
    ensures !Changed(limit, history) ==>
            HandleAll(limit, history).mode == PRIMARY && Recorded(limit, left, history) == left
  {
    var n := |history|;
    assert history[..n] == history;
    if n > 0 {
      var init := history[..n - 1];
      RecordIsRightIff(limit, left, init);
      assert forall k :: 0 <= k < n ==> init[..k] == history[..k];
      if Changed(limit, init) {
        var k :| 0 <= k <= |init| && HandleAll(limit, init[..k]).mode == FAILOVER;
        assert HandleAll(limit, history[..k]).mode == FAILOVER;
      }
    }
  }

  // ----- The mode as a property of the history -------------------------------------------------

  /** The results from `i` on begin with `limit` failures. */
  predicate FailedRun(limit: nat, history: seq<Health>, i: nat) {
    i + limit <= |history| && forall k :: i <= k < i + limit ==> !history[k].ok
  }

  /** A result that brings a failed-over monitor back. */
  predicate Returns(r: Health) {
    r.ok && r.synced
  }

  /** Some run of `limit` failures has completed, and no result has brought the monitor back since. */
  ghost predicate FailedOver(limit: nat, history: seq<Health>) {
    exists i: nat :: FailedRun(limit, history, i) && forall k :: i + limit <= k < |history| ==> !Returns(history[k])
  }

  /** The length of the run of failures that the history ends with. */
  function TrailingFailures(history: seq<Health>): (n: nat)
    ensures n <= |history|
    ensures forall k :: |history| - n <= k < |history| ==> !history[k].ok
    ensures n < |history| ==> history[|history| - n - 1].ok
  {
    if history == [] || history[|history| - 1].ok then 0 else 1 + TrailingFailures(history[..|history| - 1])
  }

  lemma {:induction false} FailedOverSnoc(limit: nat, init: seq<Health>, r: Health)
    requires limit >= 1
    ensures FailedOver(limit, init + [r]) <==>
            (FailedOver(limit, init) && !Returns(r)) || (!r.ok && TrailingFailures(init) + 1 >= limit)
  {
    var h := init + [r];
    var n, t := |init|, TrailingFailures(init);
    assert t < n ==> h[n - t - 1].ok;
    if FailedOver(limit, h) {
      var i: nat :| FailedRun(limit, h, i) && forall k :: i + limit <= k < |h| ==> !Returns(h[k]);
      if i + limit == |h| {
        assert !h[n].ok;
      } else {
        assert forall k :: i <= k < i + limit ==> init[k] == h[k];
        assert FailedRun(limit, init, i);
        assert !Returns(h[n]);
        assert forall k :: i + limit <= k < |init| ==> init[k] == h[k];
      }
    }
    if FailedOver(limit, init) && !Returns(r) {
      var i: nat :| FailedRun(limit, init, i) && forall k :: i + limit <= k < |init| ==> !Returns(init[k]);
      assert FailedRun(limit, h, i);
    }
    if !r.ok && TrailingFailures(init) + 1 >= limit {
      assert FailedRun(limit, h, |h| - limit);
    }
  }

  /** A limit below one acts as one: the first failure reaches it. */
  function RunLength(limit: int): nat {
    if limit < 1 then 1 else limit
  }

  lemma {:induction false} LowLimitIsOne(limit: int, history: seq<Health>)
    ensures HandleAll(limit, history) == HandleAll(RunLength(limit), history)
  {
    if history != [] {
      LowLimitIsOne(limit, history[..|history| - 1]);
    }
  }

  /**
   After any history of results, the monitor has failed over exactly when a run of `limit` failures
   has completed since the last result that brings it back; its counter is the number of failures
   since the last success; and in PRIMARY that is less than the limit.
   */
  lemma {:induction false} ModeIsHistory(limit: int, history: seq<Health>)
    ensures var m := HandleAll(limit, history);
            && (m.mode == FAILOVER <==> FailedOver(RunLength(limit), history))
            && m.failures == TrailingFailures(history)
            && (m.mode == PRIMARY ==> m.failures < RunLength(limit))
  {
    LowLimitIsOne(limit, history);
    ModeIsHistoryOf(RunLength(limit), history);
  }

  lemma {:induction false} ModeIsHistoryOf(limit: nat, history: seq<Health>)
    requires limit >= 1
    ensures var m := HandleAll(limit, history);
            && (m.mode == FAILOVER <==> FailedOver(limit, history))
            && m.failures == TrailingFailures(history)
            && (m.mode == PRIMARY ==> m.failures < limit)
  {
    if history != [] {
      var init, r := history[..|history| - 1], history[|history| - 1];
      assert history == init + [r];
      ModeIsHistoryOf(limit, init);
      FailedOverSnoc(limit, init, r);
    }
  }

  // ----- With the shared trading state ---------------------------------------------------------

  /** A health result seen by the monitor, or one command of any caller of the trading state. */
  datatype Event = Checked(r: Health) | Command(a: RuntimeState.Action)

  datatype System = System(monitor: Monitor, store: RuntimeState.Store)

  /** A triggered failover begins a forced write of CLOSE_ONLY under the monitor's own caller id. */
  function Next(limit: int, self: RuntimeState.Caller, secretReady: bool, s: System, e: Event): System {
    match e
    case Command(a) => s.(store := RuntimeState.Step(s.store, a))
    case Checked(r) =>
      System(Handle(s.monitor, limit, r),
             if Triggers(s.monitor, limit, r) then
               RuntimeState.Step(s.store, RuntimeState.BeginForce(self, RuntimeState.CLOSE_ONLY, secretReady))
             else s.store)
  }

  function RunSystem(limit: int, self: RuntimeState.Caller, secretReady: bool, s: System, es: seq<Event>): System {
    if es == [] then s
    else Next(limit, self, secretReady, RunSystem(limit, self, secretReady, s, es[..|es| - 1]), es[|es| - 1])
  }

  /** Nobody begins a transition to ACTIVE with a valid token. */
  ghost predicate NobodyResumes(es: seq<Event>) {
    forall e :: e in es && e.Command? && e.a.BeginTransition? && e.a.tokenValid ==> e.a.target != RuntimeState.ACTIVE
  }

  /**
   Once trading is not ACTIVE, no sequence of health results, recoveries included, makes it ACTIVE without a
   token.
   */
  lemma {:induction false} RecoveryNeverResumes(
    limit: int, self: RuntimeState.Caller, secretReady: bool, s: System, es: seq<Event>)
    requires s.store.value != RuntimeState.ACTIVE && RuntimeState.NobodyResuming(s.store)
    requires NobodyResumes(es)
    ensures var t := RunSystem(limit, self, secretReady, s, es);
            t.store.value != RuntimeState.ACTIVE && RuntimeState.NobodyResuming(t.store)
  {
    if es != [] {
      var init, e := es[..|es| - 1], es[|es| - 1];
      assert es == init + [e];
      assert e in es;
      RecoveryNeverResumes(limit, self, secretReady, s, init);
      var before := RunSystem(limit, self, secretReady, s, init);
      match e
      case Command(a) => OneMore(before.store, a);
      case Checked(r) => OneMore(before.store, RuntimeState.BeginForce(self, RuntimeState.CLOSE_ONLY, secretReady));
    }
  }

  lemma {:induction false} OneMore(store: RuntimeState.Store, a: RuntimeState.Action)
    requires store.value != RuntimeState.ACTIVE && RuntimeState.NobodyResuming(store)
    requires a.BeginTransition? && a.tokenValid ==> a.target != RuntimeState.ACTIVE
    ensures RuntimeState.Step(store, a).value != RuntimeState.ACTIVE
    ensures RuntimeState.NobodyResuming(RuntimeState.Step(store, a))
  {
    RuntimeState.StaysInactive(store, [a]);
    assert [a][..0] == [];
    assert RuntimeState.Run(store, [a]) == RuntimeState.Step(store, a);
  }

  lemma {:induction false} StoreIsLinear(
    limit: int, self: RuntimeState.Caller, secretReady: bool, value: RuntimeState.TradingState, es: seq<Event>)
    ensures RuntimeState.Linear(value, RunSystem(limit, self, secretReady, Begin(value), es).store)
  {
    if es != [] {
      var init, e := es[..|es| - 1], es[|es| - 1];
      StoreIsLinear(limit, self, secretReady, value, init);
      var store := RunSystem(limit, self, secretReady, Begin(value), init).store;
      var a := if e.Command? then e.a else RuntimeState.BeginForce(self, RuntimeState.CLOSE_ONLY, secretReady);
      RuntimeState.StepKeepsLinear(value, store, a);
    }
  }

  function Begin(value: RuntimeState.TradingState): System {
    System(Monitor(0, PRIMARY), RuntimeState.Start(value))
  }

  /**
   In any run of the system: a result that takes the monitor to FAILOVER, and no other, begins a forced write.
   It ends in CLOSE_ONLY, whatever the value was and whatever others do meanwhile, exactly when the token
   secret is ready and no write comes between the monitor's watch and its commit.
   */
  lemma {:induction false} FailoverCloses(
    limit: int, self: RuntimeState.Caller, secretReady: bool, value: RuntimeState.TradingState, es: seq<Event>,
    r: Health, a1: seq<RuntimeState.Action>, a2: seq<RuntimeState.Action>)
    requires var s := RunSystem(limit, self, secretReady, Begin(value), es);
             RuntimeState.IsFree(RuntimeState.CallOf(s.store, self))
    requires RuntimeState.Others(a1, self) && RuntimeState.Others(a2, self)
    ensures var s := RunSystem(limit, self, secretReady, Begin(value), es);
            var t := Next(limit, self, secretReady, s, Checked(r));
            var history, n := HistoryOf(es), RunLength(limit);
            var failsOver := !FailedOver(n, history) && FailedOver(n, history + [r]);
            var watching := RuntimeState.Run(t.store, a1);
            var executing := RuntimeState.Run(RuntimeState.Step(watching, RuntimeState.Watch(self)), a2);
            var after := RuntimeState.Step(executing, RuntimeState.Execute(self));
            && (!failsOver ==> t.store == s.store)
            && (failsOver ==>
                (RuntimeState.CallOf(after, self) == RuntimeState.Done(RuntimeState.Ok) <==>
                 secretReady && executing.log == watching.log))
            && (failsOver && secretReady && executing.log == watching.log ==> after.value == RuntimeState.CLOSE_ONLY)
  {
    var s := RunSystem(limit, self, secretReady, Begin(value), es);
    StoreIsLinear(limit, self, secretReady, value, es);
    MonitorIsHistory(limit, self, secretReady, value, es);
    ModeIsHistory(limit, HistoryOf(es));
    ModeIsHistory(limit, HistoryOf(es) + [r]);
    assert (HistoryOf(es) + [r])[..|HistoryOf(es)|] == HistoryOf(es);
    RuntimeState.ForceOutcome(value, s.store, self, RuntimeState.CLOSE_ONLY, secretReady, a1, a2);
  }

  /** The health results among the events. */
  function HistoryOf(es: seq<Event>): seq<Health> {
    if es == [] then []
    else HistoryOf(es[..|es| - 1]) + (if es[|es| - 1].Checked? then [es[|es| - 1].r] else [])
  }

  lemma {:induction false} MonitorIsHistory(
    limit: int, self: RuntimeState.Caller, secretReady: bool, value: RuntimeState.TradingState, es: seq<Event>)
    ensures RunSystem(limit, self, secretReady, Begin(value), es).monitor == HandleAll(limit, HistoryOf(es))
  {
    if es != [] {
      var init, e := es[..|es| - 1], es[|es| - 1];
      MonitorIsHistory(limit, self, secretReady, value, init);
      if e.Checked? {
        assert HistoryOf(es)[..|HistoryOf(init)|] == HistoryOf(init);
      } else {
        assert HistoryOf(es) == HistoryOf(init);
      }
    }
  }
}
