/**
 The shared trading state in Redis: one key with a version that every write raises, and any number
 of callers whose calls are cut up at each command, so that others run in between.
 */
module RuntimeState {
  datatype TradingState = ACTIVE | PAUSED | CLOSE_ONLY | HALTED

  predicate IsLegal(from: TradingState, to: TradingState) {
    match from
    case ACTIVE => to in {PAUSED, CLOSE_ONLY, HALTED}
    case PAUSED => to in {ACTIVE, CLOSE_ONLY, HALTED}
    case CLOSE_ONLY => to in {ACTIVE, HALTED}
    case HALTED => to == ACTIVE
  }

  type Caller = nat

  datatype Outcome =
    | Ok
    | TokenInvalid
    | IllegalTransition
    | CasMiss(current: TradingState)
    | WatchError
    | UnsafeTarget
    | NoSecret

  /** How far a caller's current call has come. */
  datatype Progress =
    | Idle
    | CasReady(expected: TradingState, target: TradingState)
    | CasWatching(expected: TradingState, target: TradingState, seen: nat)
    | CasMatched(expected: TradingState, target: TradingState, seen: nat)
    | ForceReady(target: TradingState)
    | ForceWatching(target: TradingState, seen: nat)
    | Done(outcome: Outcome)

  /** A write that was executed; `seen` is the version watched. */
  datatype Write =
    | Cas(caller: Caller, expected: TradingState, target: TradingState, seen: nat)
    | Forced(caller: Caller, target: TradingState, seen: nat)

  datatype Store = Store(value: TradingState, version: nat, calls: map<Caller, Progress>, log: seq<Write>)

  datatype Action =
    | BeginTransition(c: Caller, expected: TradingState, target: TradingState, tokenValid: bool)
    | BeginForce(c: Caller, target: TradingState, secretReady: bool)
    | Watch(c: Caller)
    | Read(c: Caller)
    | Execute(c: Caller)

  function CallOf(s: Store, c: Caller): Progress {
    if c in s.calls then s.calls[c] else Idle
  }

  function To(s: Store, c: Caller, p: Progress): Store {
    s.(calls := s.calls[c := p])
  }

  function Commit(s: Store, w: Write): Store {
    To(s, w.caller, Done(Ok)).(value := w.target, version := s.version + 1, log := s.log + [w])
  }

  predicate IsFree(p: Progress) {
    p.Idle? || p.Done?
  }

  /** One command of one caller; a command that does not apply leaves the store as it is. */
  function Step(s: Store, a: Action): Store {
    var p := CallOf(s, a.c);
    match a
    case BeginTransition(c, expected, target, tokenValid) =>
      if !IsFree(p) then s
      else if !tokenValid then To(s, c, Done(TokenInvalid))
      else if !IsLegal(expected, target) then To(s, c, Done(IllegalTransition))
      else To(s, c, CasReady(expected, target))
    case BeginForce(c, target, secretReady) =>
      if !IsFree(p) then s
      else if target == ACTIVE then To(s, c, Done(UnsafeTarget))
      else if !secretReady then To(s, c, Done(NoSecret))
      else To(s, c, ForceReady(target))
    case Watch(c) =>
      if p.CasReady? then To(s, c, CasWatching(p.expected, p.target, s.version))
      else if p.ForceReady? then To(s, c, ForceWatching(p.target, s.version))
      else s
    case Read(c) =>
      if !p.CasWatching? then s
      else if s.value != p.expected then To(s, c, Done(CasMiss(s.value)))
      else To(s, c, CasMatched(p.expected, p.target, p.seen))
    case Execute(c) =>
      if !(p.CasMatched? || p.ForceWatching?) then s
      else if p.seen != s.version then To(s, c, Done(WatchError))
      else if p.CasMatched? then Commit(s, Cas(c, p.expected, p.target, p.seen))
      else Commit(s, Forced(c, p.target, p.seen))
  }

  function Run(s: Store, actions: seq<Action>): Store {
    if actions == [] then s else Step(Run(s, actions[..|actions| - 1]), actions[|actions| - 1])
  }

  function Start(value: TradingState): Store {
    Store(value, 0, map[], [])
  }

  /** The value after the first `k` writes. */
  function ValueAfter(start: TradingState, log: seq<Write>, k: nat): TradingState
    requires k <= |log|
  {
    if k == 0 then start else log[k - 1].target
  }

  /**
   What is true of the write that took the value from its k-th to its next: no write came between watching
   and committing.
   */
  predicate WriteIsSound(start: TradingState, log: seq<Write>, k: nat)
    requires k < |log|
  {
    && log[k].seen == k
    && match log[k]
       case Cas(_, expected, target, _) => ValueAfter(start, log, k) == expected && IsLegal(expected, target)
       case Forced(_, target, _) => target != ACTIVE
  }

  ghost predicate CallIsSound(start: TradingState, s: Store, c: Caller) {
    match CallOf(s, c)
    case CasReady(expected, target) => IsLegal(expected, target)
    case CasWatching(expected, target, seen) => IsLegal(expected, target) && seen <= s.version
    case CasMatched(expected, target, seen) =>
      && IsLegal(expected, target) && seen <= s.version
      && (seen == s.version ==> s.value == expected)
    case ForceReady(target) => target != ACTIVE
    case ForceWatching(target, seen) => target != ACTIVE && seen <= s.version
    case _ => true
  }

  ghost predicate Linear(start: TradingState, s: Store) {
    && s.version == |s.log|
    && s.value == ValueAfter(start, s.log, |s.log|)
    && (forall k :: 0 <= k < |s.log| ==> WriteIsSound(start, s.log, k))
    && (forall c :: CallIsSound(start, s, c))
  }

  lemma {:induction false} StepKeepsLinear(start: TradingState, s: Store, a: Action)
    requires Linear(start, s)
    ensures Linear(start, Step(s, a))
    ensures s.log <= Step(s, a).log
  {
    var t := Step(s, a);
    assert CallIsSound(start, s, a.c);
    forall c ensures CallIsSound(start, t, c) {
      assert CallIsSound(start, s, c);
    }
    forall k | 0 <= k < |t.log| ensures WriteIsSound(start, t.log, k) {
      if k < |s.log| {
        assert WriteIsSound(start, s.log, k);
      }
    }
  }

  /**
   Whatever the interleaving, the writes form one history: each transition that succeeded moved the
   value from exactly what it expected along a legal edge, having watched the version it replaced,
   and a forced write never reaches ACTIVE.
   */
  lemma {:induction false} RunIsLinear(start: TradingState, actions: seq<Action>)
    ensures Linear(start, Run(Start(start), actions))
  {
    if actions == [] {
    } else {
      RunIsLinear(start, actions[..|actions| - 1]);
      StepKeepsLinear(start, Run(Start(start), actions[..|actions| - 1]), actions[|actions| - 1]);
    }
  }

  /** Of all attempts that watched the same version, at most one succeeds. */
  lemma {:induction false} OneWinnerPerVersion(start: TradingState, actions: seq<Action>, i: nat, j: nat)
    requires var log := Run(Start(start), actions).log; i < |log| && j < |log| && log[i].seen == log[j].seen
    ensures i == j
  {
    RunIsLinear(start, actions);
    var log := Run(Start(start), actions).log;
    assert WriteIsSound(start, log, i) && WriteIsSound(start, log, j);
  }

  /** An attempt is refused at commit exactly when another write replaced the version it watched. */
  lemma {:induction false} RefusedMeansOvertaken(start: TradingState, s: Store, c: Caller)
    requires Linear(start, s) && (CallOf(s, c).CasMatched? || CallOf(s, c).ForceWatching?)
    ensures CallOf(Step(s, Execute(c)), c) == Done(WatchError) <==> CallOf(s, c).seen < |s.log|
    ensures CallOf(Step(s, Execute(c)), c) == Done(Ok) <==> |Step(s, Execute(c)).log| == |s.log| + 1
  {
    assert CallIsSound(start, s, c);
  }

  // ----- What a call comes to ------------------------------------------------------------------

  /** The pairs that a transition may take the value along. */
  const LEGAL: set<(TradingState, TradingState)> := {
    (ACTIVE, PAUSED), (ACTIVE, CLOSE_ONLY), (ACTIVE, HALTED),
    (PAUSED, ACTIVE), (PAUSED, CLOSE_ONLY), (PAUSED, HALTED),
    (CLOSE_ONLY, ACTIVE), (CLOSE_ONLY, HALTED),
    (HALTED, ACTIVE)
  }

  lemma LegalPairs(from: TradingState, to: TradingState)
    ensures IsLegal(from, to) <==> (from, to) in LEGAL
  {
  }

  /** Commands of other callers. */
  predicate Others(actions: seq<Action>, c: Caller) {
    forall a :: a in actions ==> a.c != c
  }

  lemma {:induction false} OthersLeaveCall(s: Store, actions: seq<Action>, c: Caller)
    requires Others(actions, c)
    ensures CallOf(Run(s, actions), c) == CallOf(s, c)
  {
    if actions != [] {
      var init, a := actions[..|actions| - 1], actions[|actions| - 1];
      assert actions == init + [a];
      assert a in actions;
      OthersLeaveCall(s, init, c);
    }
  }

  lemma {:induction false} LogGrows(start: TradingState, s: Store, actions: seq<Action>)
    requires Linear(start, s)
    ensures Linear(start, Run(s, actions)) && s.log <= Run(s, actions).log
  {
    if actions != [] {
      LogGrows(start, s, actions[..|actions| - 1]);
      StepKeepsLinear(start, Run(s, actions[..|actions| - 1]), actions[|actions| - 1]);
    }
  }

  /** The store at the moments of a call: as it watches, as it reads, as it executes, and afterwards. */
  datatype Course = Course(watching: Store, reading: Store, executing: Store, after: Store)

  /** One call of `transition`; the other callers' commands run between its own. */
  function TransitionCourse(s: Store, c: Caller, expected: TradingState, target: TradingState, tokenValid: bool,
                            a1: seq<Action>, a2: seq<Action>, a3: seq<Action>): Course {
    var watching := Run(Step(s, BeginTransition(c, expected, target, tokenValid)), a1);
    var reading := Run(Step(watching, Watch(c)), a2);
    var executing := Run(Step(reading, Read(c)), a3);
    Course(watching, reading, executing, Step(executing, Execute(c)))
  }

  /**
   From any reachable store and for any interleaving, what a transition comes to: its token and its pair are
   refused first, then a value that is not the expected one as it read, then any write since it watched.
   Otherwise, and only then, it succeeds and the target is written.
   */
  lemma {:induction false} TransitionOutcome(
    start: TradingState, before: seq<Action>, c: Caller, expected: TradingState, target: TradingState,
    tokenValid: bool, a1: seq<Action>, a2: seq<Action>, a3: seq<Action>)
    requires IsFree(CallOf(Run(Start(start), before), c))
    requires Others(a1, c) && Others(a2, c) && Others(a3, c)
    ensures var t := TransitionCourse(Run(Start(start), before), c, expected, target, tokenValid, a1, a2, a3);
            var result := CallOf(t.after, c);
            var admitted := tokenValid && (expected, target) in LEGAL;
            && (result == Done(TokenInvalid) <==> !tokenValid)
            && (result == Done(IllegalTransition) <==> tokenValid && (expected, target) !in LEGAL)
            && (forall v :: result == Done(CasMiss(v)) <==> admitted && t.reading.value == v && v != expected)
            && (result == Done(WatchError) <==>
                admitted && t.reading.value == expected && t.executing.log != t.watching.log)
            && (result == Done(Ok) <==>
                admitted && t.reading.value == expected && t.executing.log == t.watching.log)
    ensures var t := TransitionCourse(Run(Start(start), before), c, expected, target, tokenValid, a1, a2, a3);
            if CallOf(t.after, c) == Done(Ok) then
              && t.after.value == target
              && t.after.log == t.executing.log + [Cas(c, expected, target, |t.watching.log|)]
            else t.after.value == t.executing.value && t.after.log == t.executing.log
  {
    var s := Run(Start(start), before);
    var t := TransitionCourse(s, c, expected, target, tokenValid, a1, a2, a3);
    var begun := Step(s, BeginTransition(c, expected, target, tokenValid));
    RunIsLinear(start, before);
    StepKeepsLinear(start, s, BeginTransition(c, expected, target, tokenValid));
    LegalPairs(expected, target);
    OthersLeaveCall(begun, a1, c);
    LogGrows(start, begun, a1);
    CallFromWatch(start, t.watching, c, a2, a3);
  }

  /** The rest of a call of `transition`, from its watch on. */
  lemma CallFromWatch(start: TradingState, s: Store, c: Caller, a2: seq<Action>, a3: seq<Action>)
    requires Linear(start, s) && (CallOf(s, c).CasReady? || CallOf(s, c).Done?)
    requires Others(a2, c) && Others(a3, c)
    ensures var p := CallOf(s, c);
            var reading := Run(Step(s, Watch(c)), a2);
            var executing := Run(Step(reading, Read(c)), a3);
            var after := Step(executing, Execute(c));
            if p.Done? then CallOf(after, c) == p && after == executing
            else if reading.value != p.expected then
              CallOf(after, c) == Done(CasMiss(reading.value)) && after == executing
            else if executing.log != s.log then
              CallOf(after, c) == Done(WatchError) && after.value == executing.value && after.log == executing.log
            else
              && CallOf(after, c) == Done(Ok) && after.value == p.target
              && after.log == executing.log + [Cas(c, p.expected, p.target, |s.log|)]
  {
    var watched := Step(s, Watch(c));
    StepKeepsLinear(start, s, Watch(c));
    OthersLeaveCall(watched, a2, c);
    LogGrows(start, watched, a2);
    var reading := Run(watched, a2);
    StepKeepsLinear(start, reading, Read(c));
    OthersLeaveCall(Step(reading, Read(c)), a3, c);
    LogGrows(start, Step(reading, Read(c)), a3);
  }

  /** One call of `force_transition_internal`. */
  function ForceCourse(s: Store, c: Caller, target: TradingState, secretReady: bool, a1: seq<Action>, a2: seq<Action>)
    : Course
  {
    var watching := Run(Step(s, BeginForce(c, target, secretReady)), a1);
    var executing := Run(Step(watching, Watch(c)), a2);
    Course(watching, watching, executing, Step(executing, Execute(c)))
  }

  /** A forced write of a protective state succeeds, whatever the value, exactly when no write follows its watch. */
  lemma ForceOutcome(start: TradingState, s: Store, c: Caller, target: TradingState, secretReady: bool,
                     a1: seq<Action>, a2: seq<Action>)
    requires Linear(start, s) && IsFree(CallOf(s, c)) && Others(a1, c) && Others(a2, c)
    ensures var t := ForceCourse(s, c, target, secretReady, a1, a2);
            var result := CallOf(t.after, c);
            var admitted := target in {PAUSED, CLOSE_ONLY, HALTED} && secretReady;
            && (result == Done(UnsafeTarget) <==> target == ACTIVE)
            && (result == Done(NoSecret) <==> target != ACTIVE && !secretReady)
            && (result == Done(WatchError) <==> admitted && t.executing.log != t.watching.log)
            && (result == Done(Ok) <==> admitted && t.executing.log == t.watching.log)
    ensures var t := ForceCourse(s, c, target, secretReady, a1, a2);
            if CallOf(t.after, c) == Done(Ok) then
              t.after.value == target && t.after.log == t.executing.log + [Forced(c, target, |t.watching.log|)]
            else t.after.value == t.executing.value && t.after.log == t.executing.log
  {
    var begun := Step(s, BeginForce(c, target, secretReady));
    StepKeepsLinear(start, s, BeginForce(c, target, secretReady));
    OthersLeaveCall(begun, a1, c);
    LogGrows(start, begun, a1);
    ForceFromWatch(start, Run(begun, a1), c, a2);
  }

  lemma ForceFromWatch(start: TradingState, s: Store, c: Caller, a2: seq<Action>)
    requires Linear(start, s) && (CallOf(s, c).ForceReady? || CallOf(s, c).Done?) && Others(a2, c)
    ensures var p := CallOf(s, c);
            var executing := Run(Step(s, Watch(c)), a2);
            var after := Step(executing, Execute(c));
            if p.Done? then CallOf(after, c) == p && after == executing
            else if executing.log != s.log then
              CallOf(after, c) == Done(WatchError) && after.value == executing.value && after.log == executing.log
            else
              && CallOf(after, c) == Done(Ok) && after.value == p.target
              && after.log == executing.log + [Forced(c, p.target, |s.log|)]
  {
    StepKeepsLinear(start, s, Watch(c));
    OthersLeaveCall(Step(s, Watch(c)), a2, c);
    LogGrows(start, Step(s, Watch(c)), a2);
  }

  // ----- How the value changes -----------------------------------------------------------------

  /** The caller began this transition with a valid token. */
  ghost predicate Granted(actions: seq<Action>, c: Caller, expected: TradingState, target: TradingState) {
    BeginTransition(c, expected, target, true) in actions
  }

  ghost predicate CallIsGranted(actions: seq<Action>, s: Store, c: Caller) {
    var p := CallOf(s, c);
    p.CasReady? || p.CasWatching? || p.CasMatched? ==> Granted(actions, c, p.expected, p.target)
  }

  ghost predicate WriteIsGranted(actions: seq<Action>, w: Write) {
    w.Cas? ==> Granted(actions, w.caller, w.expected, w.target)
  }

  /** Every transition under way, and every one that wrote, was begun with a valid token. */
  lemma {:induction false} RunIsGranted(start: TradingState, actions: seq<Action>)
    ensures forall c :: CallIsGranted(actions, Run(Start(start), actions), c)
    ensures forall k :: 0 <= k < |Run(Start(start), actions).log| ==>
            WriteIsGranted(actions, Run(Start(start), actions).log[k])
  {
    if actions != [] {
      var init, a := actions[..|actions| - 1], actions[|actions| - 1];
      assert actions == init + [a];
      RunIsGranted(start, init);
      var s := Run(Start(start), init);
      assert CallIsGranted(init, s, a.c);
      forall c ensures CallIsGranted(actions, Step(s, a), c) {
        assert CallIsGranted(init, s, c);
      }
      forall k | 0 <= k < |Step(s, a).log| ensures WriteIsGranted(actions, Step(s, a).log[k]) {
        assert k < |s.log| ==> WriteIsGranted(init, s.log[k]);
      }
    }
  }

  /** A write took the value to ACTIVE only as a transition begun with a valid token. */
  lemma {:induction false} ActiveNeedsTransition(start: TradingState, actions: seq<Action>, from: nat, to: nat)
    requires var log := Run(Start(start), actions).log;
             from <= to <= |log| && ValueAfter(start, log, from) != ACTIVE && ValueAfter(start, log, to) == ACTIVE
    ensures var log := Run(Start(start), actions).log;
            exists k :: from <= k < to && log[k].Cas? && log[k].target == ACTIVE
                        && Granted(actions, log[k].caller, log[k].expected, ACTIVE)
  {
    RunIsLinear(start, actions);
    RunIsGranted(start, actions);
    var log := Run(Start(start), actions).log;
    assert to > from;
    assert WriteIsSound(start, log, to - 1) && WriteIsGranted(actions, log[to - 1]);
  }

  /** No transition began with a valid token and ACTIVE as its target. */
  ghost predicate NoResume(actions: seq<Action>) {
    forall a :: a in actions && a.BeginTransition? && a.tokenValid ==> a.target != ACTIVE
  }

  predicate NotResuming(p: Progress) {
    (p.CasReady? || p.CasWatching? || p.CasMatched? || p.ForceReady? || p.ForceWatching?) ==> p.target != ACTIVE
  }

  /** No caller is under way to ACTIVE. */
  ghost predicate NobodyResuming(s: Store) {
    forall c :: NotResuming(CallOf(s, c))
  }

  /** Without such a transition under way or begun, a value other than ACTIVE never becomes ACTIVE. */
  lemma {:induction false} StaysInactive(s: Store, actions: seq<Action>)
    requires s.value != ACTIVE && NobodyResuming(s) && NoResume(actions)
    ensures Run(s, actions).value != ACTIVE && NobodyResuming(Run(s, actions))
  {
    if actions != [] {
      var init, a := actions[..|actions| - 1], actions[|actions| - 1];
      assert actions == init + [a];
      assert a in actions;
      StaysInactive(s, init);
      var t := Run(s, init);
      assert NotResuming(CallOf(t, a.c));
      forall c ensures NotResuming(CallOf(Step(t, a), c)) {
        assert NotResuming(CallOf(t, c));
      }
    }
  }

  // ----- HALTED --------------------------------------------------------------------------------

  /** HALTED is not held against automated writes: a forced write replaces it. */
  lemma {:induction false} ForcedWriteLeavesHalted()
    ensures var actions := [BeginForce(0, PAUSED, true), Watch(0), Execute(0)];
            Run(Start(HALTED), actions).value == PAUSED
  {
    var actions := [BeginForce(0, PAUSED, true), Watch(0), Execute(0)];
    assert actions[..2] == [BeginForce(0, PAUSED, true), Watch(0)];
    assert actions[..2][..1] == [BeginForce(0, PAUSED, true)];
    assert actions[..1][..0] == [];
    assert Run(Start(HALTED), actions[..1]) == Step(Start(HALTED), actions[0]);
    assert Run(Start(HALTED), actions[..2]) == Step(Run(Start(HALTED), actions[..1]), actions[1]);
  }

  /**
   The value leaves HALTED by exactly two kinds of write: a token-checked resume, and a forced write of a
   milder state.
   */
  lemma {:induction false} HowHaltedIsLeft(start: TradingState, actions: seq<Action>, k: nat)
    requires var log := Run(Start(start), actions).log; k < |log| && ValueAfter(start, log, k) == HALTED
    ensures var log := Run(Start(start), actions).log;
            ValueAfter(start, log, k + 1) != HALTED <==>
            (log[k].Cas? && log[k].target == ACTIVE) || (log[k].Forced? && log[k].target in {PAUSED, CLOSE_ONLY})
  {
    RunIsLinear(start, actions);
    assert WriteIsSound(start, Run(Start(start), actions).log, k);
  }
}
