/**
 Leader election over a Redis lease, as steps of any number of nodes.

 Every command runs in Redis at one moment, but a node may learn of it arbitrarily later: between
 winning the lock and holding the leader flag lie the counter increment and its reply. `Fail` covers
 any exception, so also a command that ran and whose reply was lost.
 */
module LeaderElection {
  type Node = nat

  /** The lock key; it reads as absent from its expiry on. */
  datatype Lock = Free | Held(owner: Node, expiry: real)

  /**
   Where a node stands: `since` is the moment of its last acquire or renewal in Redis, and the
   leader flag is set in `Leader` and, after a renewal that was refused, still in `Losing`.
   */
  datatype Phase =
    | Standby
    | Won(since: real)
    | Numbered(since: real, generation: nat)
    | Leader(since: real, generation: nat)
    | Losing(since: real, generation: nat)

  datatype Member = Member(phase: Phase, stopped: bool)

  /** `elections` lists the generations handed out, in order. */
  datatype State = State(now: real, lock: Lock, counter: nat, members: map<Node, Member>, elections: seq<(Node, nat)>)

  datatype Action =
    | Tick(dt: real)
    | Acquire(n: Node)
    | Number(n: Node)
    | Elect(n: Node)
    | Renew(n: Node)
    | Demote(n: Node)
    | Fail(n: Node)
    | Stop(n: Node)

  function MemberAt(s: State, n: Node): Member {
    if n in s.members then s.members[n] else Member(Standby, false)
  }

  function PhaseAt(s: State, n: Node): Phase {
    MemberAt(s, n).phase
  }

  predicate IsLeader(s: State, n: Node) {
    PhaseAt(s, n).Leader? || PhaseAt(s, n).Losing?
  }

  /** The node holds the lock and it has not expired. */
  predicate Owns(s: State, n: Node) {
    s.lock.Held? && s.lock.owner == n && s.now < s.lock.expiry
  }

  predicate Locked(s: State) {
    s.lock.Held? && s.now < s.lock.expiry
  }

  function To(s: State, n: Node, p: Phase): State {
    s.(members := s.members[n := MemberAt(s, n).(phase := p)])
  }

  /** One step; an action that does not apply leaves the state as it is. */
  function Step(lease: real, s: State, a: Action): State {
    match a
    case Tick(dt) => if dt > 0.0 then s.(now := s.now + dt) else s
    case Acquire(n) =>
      if PhaseAt(s, n).Standby? && !Locked(s) then To(s, n, Won(s.now)).(lock := Held(n, s.now + lease)) else s
    case Number(n) =>
      if PhaseAt(s, n).Won? then
        To(s, n, Numbered(PhaseAt(s, n).since, s.counter + 1))
        .(counter := s.counter + 1, elections := s.elections + [(n, s.counter + 1)])
      else s
    case Elect(n) =>
      if PhaseAt(s, n).Numbered? then To(s, n, Leader(PhaseAt(s, n).since, PhaseAt(s, n).generation)) else s
    case Renew(n) =>
      if !PhaseAt(s, n).Leader? then s
      else if Owns(s, n) then To(s, n, Leader(s.now, PhaseAt(s, n).generation)).(lock := Held(n, s.now + lease))
      else To(s, n, Losing(PhaseAt(s, n).since, PhaseAt(s, n).generation))
    case Demote(n) => if PhaseAt(s, n).Losing? then To(s, n, Standby) else s
    case Fail(n) => To(s, n, Standby)
    case Stop(n) =>
      var t := s.(members := s.members[n := MemberAt(s, n).(stopped := true)]);
      if IsLeader(s, n) && Owns(s, n) then t.(lock := Free) else t
  }

  function Initial(start: real, counter: nat): State {
    State(start, Free, counter, map[], [])
  }

  function Run(lease: real, s: State, actions: seq<Action>): State {
    if actions == [] then s else Step(lease, Run(lease, s, actions[..|actions| - 1]), actions[|actions| - 1])
  }

  // ----- The lease -----------------------------------------------------------------------------

  /** The node counts on the lock: it won it, and it has not given it up by stopping as leader. */
  predicate Claims(s: State, n: Node) {
    PhaseAt(s, n).Won? || PhaseAt(s, n).Numbered? || (IsLeader(s, n) && !MemberAt(s, n).stopped)
  }

  /** The node's last acquire or renewal lies less than a lease back. */
  predicate Fresh(lease: real, s: State, n: Node) {
    !PhaseAt(s, n).Standby? && s.now < PhaseAt(s, n).since + lease
  }

  /**
   A fresh claim is backed by the lock, and a lock held by a node past standby expires a lease after its last
   success.
   */
  predicate LeaseAt(lease: real, s: State, n: Node) {
    && (Claims(s, n) && Fresh(lease, s, n) ==> Owns(s, n))
    && (s.lock.Held? && s.lock.owner == n && !PhaseAt(s, n).Standby? ==> s.lock.expiry == PhaseAt(s, n).since + lease)
  }

  ghost predicate LeaseInv(lease: real, s: State) {
    forall n :: LeaseAt(lease, s, n)
  }

  /** The node that an action is about. */
  function Actor(a: Action): Node {
    match a
    case Tick(_) => 0
    case _ => a.n
  }

  lemma {:induction false} StepKeepsLease(lease: real, s: State, a: Action)
    requires lease > 0.0 && LeaseInv(lease, s)
    ensures LeaseInv(lease, Step(lease, s, a))
  {
    forall n ensures LeaseAt(lease, Step(lease, s, a), n) {
      assert LeaseAt(lease, s, n) && LeaseAt(lease, s, Actor(a));
    }
  }

  lemma {:induction false} RunKeepsLease(lease: real, start: real, counter: nat, actions: seq<Action>)
    requires lease > 0.0
    ensures LeaseInv(lease, Run(lease, Initial(start, counter), actions))
  {
    if actions != [] {
      RunKeepsLease(lease, start, counter, actions[..|actions| - 1]);
      StepKeepsLease(lease, Run(lease, Initial(start, counter), actions[..|actions| - 1]), actions[|actions| - 1]);
    }
  }

  /**
   In any run, with no assumption on timing: a leader that has not stopped owns the live lock exactly while
   its lease is fresh.
   */
  lemma {:induction false} LeaderOwnsLockIffFresh(lease: real, start: real, counter: nat, actions: seq<Action>, n: Node)
    requires lease > 0.0
    ensures var s := Run(lease, Initial(start, counter), actions);
            IsLeader(s, n) && !MemberAt(s, n).stopped ==> (Owns(s, n) <==> Fresh(lease, s, n))
  {
    RunKeepsLease(lease, start, counter, actions);
    assert LeaseAt(lease, Run(lease, Initial(start, counter), actions), n);
  }

  /** Every leader that has not stopped renews or steps down strictly within a lease of its last success. */
  ghost predicate Timely(lease: real, s: State) {
    forall n :: IsLeader(s, n) && !MemberAt(s, n).stopped ==> Fresh(lease, s, n)
  }

  /** With timely leaders, being leader means owning the live lock, so there is at most one. */
  lemma {:induction false} AtMostOneLeader(
    lease: real, start: real, counter: nat, actions: seq<Action>, m: Node, n: Node)
    requires lease > 0.0
    requires var s := Run(lease, Initial(start, counter), actions);
             && Timely(lease, s)
             && IsLeader(s, m) && !MemberAt(s, m).stopped
             && IsLeader(s, n) && !MemberAt(s, n).stopped
    ensures m == n && Owns(Run(lease, Initial(start, counter), actions), n)
  {
    LeaderOwnsLockIffFresh(lease, start, counter, actions, m);
    LeaderOwnsLockIffFresh(lease, start, counter, actions, n);
  }

  /** The node takes no step of its own. */
  predicate Idle(a: Action, n: Node) {
    a.Tick? || a.n != n
  }

  /** Time passes until no one holds the lock, and a node on standby is elected. */
  function Takeover(s: State, m: Node): seq<Action> {
    [Tick(if s.lock.Held? then s.lock.expiry - s.now else 0.0), Acquire(m), Number(m), Elect(m)]
  }

  lemma {:induction false} RunAppend(lease: real, s: State, a: seq<Action>, b: seq<Action>)
    ensures Run(lease, s, a + b) == Run(lease, Run(lease, s, a), b)
  {
    if b == [] {
      assert a + b == a;
    } else {
      assert (a + b)[..|a + b| - 1] == a + b[..|b| - 1];
      RunAppend(lease, s, a, b[..|b| - 1]);
    }
  }

  lemma TakeoverElects(lease: real, s: State, m: Node, n: Node)
    requires lease > 0.0 && m != n && PhaseAt(s, m).Standby? && IsLeader(s, n)
    ensures var t := Run(lease, s, Takeover(s, m));
            && IsLeader(t, m) && IsLeader(t, n) && Owns(t, m)
            && MemberAt(t, m).stopped == MemberAt(s, m).stopped && MemberAt(t, n) == MemberAt(s, n)
  {
    RunOfFour(lease, s, Takeover(s, m));
  }

  /** From any reachable state, a leader past its lease and any node on standby can come to be leaders together. */
  lemma {:induction false} LateLeaderCanOverlap(
    lease: real, start: real, counter: nat, actions: seq<Action>, m: Node, n: Node) returns (more: seq<Action>)
    requires lease > 0.0 && m != n
    requires var s := Run(lease, Initial(start, counter), actions);
             && IsLeader(s, n) && !MemberAt(s, n).stopped && !Fresh(lease, s, n)
             && PhaseAt(s, m).Standby? && !MemberAt(s, m).stopped
    ensures forall a :: a in more ==> Idle(a, n)
    ensures var t := Run(lease, Initial(start, counter), actions + more);
            && IsLeader(t, m) && !MemberAt(t, m).stopped && IsLeader(t, n) && !MemberAt(t, n).stopped
            && Owns(t, m) && !Owns(t, n)
  {
    var s := Run(lease, Initial(start, counter), actions);
    more := Takeover(s, m);
    RunAppend(lease, Initial(start, counter), actions, more);
    TakeoverElects(lease, s, m, n);
  }

  /** Without timeliness two nodes can hold the leader flag: the first outlives its lease before the second wins. */
  lemma {:induction false} LateLeaderOverlaps(lease: real, start: real)
    requires lease > 0.0
    ensures var actions := [Acquire(0), Number(0), Elect(0), Tick(lease), Acquire(1), Number(1), Elect(1)];
            var s := Run(lease, Initial(start, 0), actions);
            IsLeader(s, 0) && IsLeader(s, 1) && !Owns(s, 0) && Owns(s, 1)
  {
    var actions := [Acquire(0), Number(0), Elect(0), Tick(lease), Acquire(1), Number(1), Elect(1)];
    RunOfSeven(lease, Initial(start, 0), actions);
  }

  /**
   A node that stops as leader keeps its leader flag, and never again owns the lock, for as long as its loop
   does not act.
   */
  lemma {:induction false} StoppedNodeKeepsFlag(lease: real, s: State, n: Node, later: seq<Action>)
    requires IsLeader(s, n) && forall a :: a in later ==> Idle(a, n)
    ensures IsLeader(Run(lease, Step(lease, s, Stop(n)), later), n)
    ensures !Owns(Run(lease, Step(lease, s, Stop(n)), later), n)
  {
    if later != [] {
      var init, last := later[..|later| - 1], later[|later| - 1];
      assert later == init + [last];
      assert last in later;
      StoppedNodeKeepsFlag(lease, s, n, init);
      IdleNodeStays(lease, Run(lease, Step(lease, s, Stop(n)), init), n, last);
    }
  }

  lemma IdleNodeStays(lease: real, s: State, n: Node, a: Action)
    requires IsLeader(s, n) && !Owns(s, n) && Idle(a, n)
    ensures IsLeader(Step(lease, s, a), n) && !Owns(Step(lease, s, a), n)
  {
  }

  /** So two nodes can hold the flag while the first's lease is fresh, with no time passing at all. */
  lemma {:induction false} StoppedLeaderOverlaps(lease: real, start: real)
    requires lease > 0.0
    ensures var actions := [Acquire(0), Number(0), Elect(0), Stop(0), Acquire(1), Number(1), Elect(1)];
            var s := Run(lease, Initial(start, 0), actions);
            IsLeader(s, 0) && IsLeader(s, 1) && Fresh(lease, s, 0) && !Owns(s, 0) && Owns(s, 1)
  {
    var actions := [Acquire(0), Number(0), Elect(0), Stop(0), Acquire(1), Number(1), Elect(1)];
    RunOfSeven(lease, Initial(start, 0), actions);
  }

  lemma {:induction false} RunOfFour(lease: real, s: State, a: seq<Action>)
    requires |a| == 4
    ensures Run(lease, s, a) == Step(lease, Step(lease, Step(lease, Step(lease, s, a[0]), a[1]), a[2]), a[3])
  {
    RunOfThree(lease, s, a[..3]);
  }

  lemma {:induction false} RunOfSeven(lease: real, s: State, a: seq<Action>)
    requires |a| == 7
    ensures var t := Step(lease, Step(lease, Step(lease, s, a[0]), a[1]), a[2]);
            Run(lease, s, a) == Step(lease, Step(lease, Step(lease, Step(lease, t, a[3]), a[4]), a[5]), a[6])
  {
    RunOfThree(lease, s, a[..3]);
    assert a == a[..3] + a[3..];
    RunAppend(lease, s, a[..3], a[3..]);
    RunOfFour(lease, Run(lease, s, a[..3]), a[3..]);
  }

  lemma {:induction false} RunOfThree(lease: real, s: State, a: seq<Action>)
    requires |a| == 3
    ensures Run(lease, s, a) == Step(lease, Step(lease, Step(lease, s, a[0]), a[1]), a[2])
  {
    assert a[..2][..1] == a[..1] && a[..1][..0] == [];
    assert Run(lease, s, a[..1]) == Step(lease, s, a[0]);
    assert Run(lease, s, a[..2]) == Step(lease, Run(lease, s, a[..1]), a[1]);
  }

  // ----- Renewal -------------------------------------------------------------------------------

  /** The node leads with this generation on a lock that it won or renewed at `since`. */
  predicate LeadsSince(lease: real, s: State, n: Node, since: real, generation: nat) {
    && PhaseAt(s, n) == Leader(since, generation)
    && s.lock == Held(n, since + lease)
  }

  /** Every node but `n` that stood by in `s` still does in `t`. */
  ghost predicate OthersStandBy(s: State, t: State, n: Node) {
    forall m :: m != n && PhaseAt(s, m).Standby? ==> PhaseAt(t, m).Standby?
  }

  lemma IdleStepKeepsLock(lease: real, s: State, n: Node, since: real, generation: nat, a: Action)
    requires LeadsSince(lease, s, n, since, generation) && Idle(a, n) && s.now < since + lease
    ensures LeadsSince(lease, Step(lease, s, a), n, since, generation)
    ensures OthersStandBy(s, Step(lease, s, a), n)
  {
    assert Locked(s);
    forall m | m != n && PhaseAt(s, m).Standby? ensures PhaseAt(Step(lease, s, a), m).Standby? {
    }
  }

  /** While the lock is live and the node idle, nobody else can touch either. */
  lemma {:induction false} IdleLeaderKeepsLock(
    lease: real, s: State, n: Node, since: real, generation: nat, later: seq<Action>)
    requires LeadsSince(lease, s, n, since, generation) && forall a :: a in later ==> Idle(a, n)
    requires Run(lease, s, later).now < since + lease
    ensures LeadsSince(lease, Run(lease, s, later), n, since, generation)
    ensures OthersStandBy(s, Run(lease, s, later), n)
  {
    if later != [] {
      var init, last := later[..|later| - 1], later[|later| - 1];
      assert later == init + [last];
      assert last in later;
      IdleLeaderKeepsLock(lease, s, n, since, generation, init);
      IdleStepKeepsLock(lease, Run(lease, s, init), n, since, generation, last);
    }
  }

  /**
   From any reachable state, a leader that owns the live lock and renews it leads on with the same
   generation, and owns the lock for a whole lease from then on, whatever the others do. One that does
   not own the lock is told so, and then steps down.
   */
  lemma {:induction false} RenewalExtends(
    lease: real, start: real, counter: nat, actions: seq<Action>, n: Node, later: seq<Action>)
    requires lease > 0.0
    requires var s := Run(lease, Initial(start, counter), actions); PhaseAt(s, n).Leader?
    requires forall a :: a in later ==> Idle(a, n)
    ensures var s := Run(lease, Initial(start, counter), actions);
            var t := Run(lease, Step(lease, s, Renew(n)), later);
            Owns(s, n) && t.now < s.now + lease ==>
              IsLeader(t, n) && Owns(t, n) && PhaseAt(t, n) == Leader(s.now, PhaseAt(s, n).generation)
    ensures var s := Run(lease, Initial(start, counter), actions);
            var t := Run(lease, Step(lease, s, Renew(n)), later);
            Owns(s, n) && t.now >= s.now + lease ==> !Owns(t, n)
    ensures var s := Run(lease, Initial(start, counter), actions);
            !Owns(s, n) ==> !IsLeader(Step(lease, Step(lease, s, Renew(n)), Demote(n)), n)
  {
    var s := Run(lease, Initial(start, counter), actions);
    var t := Step(lease, s, Renew(n));
    if Owns(s, n) {
      if Run(lease, t, later).now < s.now + lease {
        IdleLeaderKeepsLock(lease, t, n, s.now, PhaseAt(s, n).generation, later);
      } else {
        OthersNeverGiveLock(lease, t, n, s.now + lease, later);
      }
    }
  }

  /** The others never prolong the node's lock. */
  lemma {:induction false} OthersNeverGiveLock(lease: real, s: State, n: Node, expiry: real, later: seq<Action>)
    requires forall a :: a in later ==> Idle(a, n)
    requires s.lock.Held? && s.lock.owner == n ==> s.lock.expiry == expiry
    ensures var t := Run(lease, s, later); t.lock.Held? && t.lock.owner == n ==> t.lock.expiry == expiry
  {
    if later != [] {
      var init, last := later[..|later| - 1], later[|later| - 1];
      assert later == init + [last];
      assert last in later;
      OthersNeverGiveLock(lease, s, n, expiry, init);
    }
  }

  /** The node's own steps are renewals only. */
  predicate OnlyRenews(actions: seq<Action>, n: Node) {
    forall a :: a in actions ==> Idle(a, n) || a == Renew(n)
  }

  /** When the node last renewed in the course of the actions, or `since`. */
  function LastRenewal(lease: real, s: State, n: Node, since: real, actions: seq<Action>): real {
    if actions == [] then since
    else if actions[|actions| - 1] == Renew(n) then Run(lease, s, actions).now
    else LastRenewal(lease, s, n, since, actions[..|actions| - 1])
  }

  /** At every moment of the run less than a lease has passed since the last renewal. */
  predicate RenewsInTime(lease: real, s: State, n: Node, since: real, actions: seq<Action>) {
    forall k :: 0 <= k <= |actions| ==>
      Run(lease, s, actions[..k]).now < LastRenewal(lease, s, n, since, actions[..k]) + lease
  }

  lemma {:induction false} RenewsInTimeBefore(lease: real, s: State, n: Node, since: real, actions: seq<Action>)
    requires actions != [] && RenewsInTime(lease, s, n, since, actions) && OnlyRenews(actions, n)
    ensures RenewsInTime(lease, s, n, since, actions[..|actions| - 1]) && OnlyRenews(actions[..|actions| - 1], n)
    ensures Run(lease, s, actions).now < LastRenewal(lease, s, n, since, actions) + lease
  {
    var init := actions[..|actions| - 1];
    forall k | 0 <= k <= |init|
      ensures Run(lease, s, init[..k]).now < LastRenewal(lease, s, n, since, init[..k]) + lease
    {
      assert init[..k] == actions[..k];
    }
    assert actions[..|actions|] == actions;
    assert forall a :: a in init ==> a in actions;
  }

  /**
   A leader that renews strictly within each lease stays leader with its generation and owns the lock
   throughout, whatever the others do; and a node on standby stays there.
   */
  lemma {:induction false} RenewingLeaderStays(
    lease: real, s: State, n: Node, since: real, generation: nat, actions: seq<Action>)
    requires lease > 0.0 && LeadsSince(lease, s, n, since, generation)
    requires OnlyRenews(actions, n) && RenewsInTime(lease, s, n, since, actions)
    ensures var t := Run(lease, s, actions);
            && LeadsSince(lease, t, n, LastRenewal(lease, s, n, since, actions), generation)
            && IsLeader(t, n) && Owns(t, n) && OthersStandBy(s, t, n)
  {
    if actions == [] {
      assert actions[..0] == actions;
    } else {
      var init, last := actions[..|actions| - 1], actions[|actions| - 1];
      assert last in actions;
      RenewsInTimeBefore(lease, s, n, since, actions);
      RenewingLeaderStays(lease, s, n, since, generation, init);
      var mid := Run(lease, s, init);
      RenewStep(lease, mid, n, LastRenewal(lease, s, n, since, init), generation, last);
    }
  }

  lemma RenewStep(lease: real, s: State, n: Node, since: real, generation: nat, a: Action)
    requires lease > 0.0 && LeadsSince(lease, s, n, since, generation) && s.now < since + lease
    requires Idle(a, n) || a == Renew(n)
    ensures LeadsSince(lease, Step(lease, s, a), n, if a == Renew(n) then s.now else since, generation)
    ensures OthersStandBy(s, Step(lease, s, a), n)
  {
    if a != Renew(n) {
      IdleStepKeepsLock(lease, s, n, since, generation, a);
    }
  }

  /**
   From any reachable state, with no assumption on the others: such a leader that has not stopped owns the lock,
   and any other node that takes itself for leader has let its lease lapse.
   */
  lemma {:induction false} RenewingLeaderIsOnlyFresh(
    lease: real, start: real, counter: nat, before: seq<Action>, n: Node, actions: seq<Action>)
    requires lease > 0.0
    requires var s := Run(lease, Initial(start, counter), before);
             && PhaseAt(s, n).Leader? && !MemberAt(s, n).stopped && Owns(s, n)
             && OnlyRenews(actions, n) && RenewsInTime(lease, s, n, PhaseAt(s, n).since, actions)
    ensures var t := Run(lease, Initial(start, counter), before + actions);
            && IsLeader(t, n) && !MemberAt(t, n).stopped && Owns(t, n)
            && forall m :: m != n && IsLeader(t, m) && !MemberAt(t, m).stopped ==> !Fresh(lease, t, m)
  {
    var s := Run(lease, Initial(start, counter), before);
    RunKeepsLease(lease, start, counter, before);
    assert LeaseAt(lease, s, n);
    RenewingLeaderStays(lease, s, n, PhaseAt(s, n).since, PhaseAt(s, n).generation, actions);
    RenewalsKeepRunning(lease, s, n, actions);
    RunAppend(lease, Initial(start, counter), before, actions);
    var t := Run(lease, Initial(start, counter), before + actions);
    forall m | m != n && IsLeader(t, m) && !MemberAt(t, m).stopped ensures !Fresh(lease, t, m) {
      LeaderOwnsLockIffFresh(lease, start, counter, before + actions, m);
    }
  }

  /** From any reachable state: a timely leader that is the only one not on standby or stopped stays the only one. */
  lemma {:induction false} SoleLeaderStays(
    lease: real, start: real, counter: nat, before: seq<Action>, n: Node, actions: seq<Action>)
    requires lease > 0.0
    requires var s := Run(lease, Initial(start, counter), before);
             && PhaseAt(s, n).Leader? && !MemberAt(s, n).stopped && Owns(s, n)
             && (forall m :: m != n ==> PhaseAt(s, m).Standby? || MemberAt(s, m).stopped)
             && OnlyRenews(actions, n) && RenewsInTime(lease, s, n, PhaseAt(s, n).since, actions)
    ensures var t := Run(lease, Run(lease, Initial(start, counter), before), actions);
            forall m :: IsLeader(t, m) && !MemberAt(t, m).stopped <==> m == n
  {
    var s := Run(lease, Initial(start, counter), before);
    RunKeepsLease(lease, start, counter, before);
    assert LeaseAt(lease, s, n);
    RenewingLeaderStays(lease, s, n, PhaseAt(s, n).since, PhaseAt(s, n).generation, actions);
    RenewalsKeepRunning(lease, s, n, actions);
    forall m | MemberAt(s, m).stopped ensures MemberAt(Run(lease, s, actions), m).stopped {
      StoppedStays(lease, s, m, actions);
    }
  }

  lemma {:induction false} RenewalsKeepRunning(lease: real, s: State, n: Node, actions: seq<Action>)
    requires OnlyRenews(actions, n)
    ensures MemberAt(Run(lease, s, actions), n).stopped == MemberAt(s, n).stopped
  {
    if actions != [] {
      var init, last := actions[..|actions| - 1], actions[|actions| - 1];
      assert actions == init + [last];
      assert last in actions;
      RenewalsKeepRunning(lease, s, n, init);
      KeepsRunning(lease, Run(lease, s, init), n, last);
    }
  }

  lemma KeepsRunning(lease: real, s: State, n: Node, a: Action)
    requires Idle(a, n) || a == Renew(n)
    ensures MemberAt(Step(lease, s, a), n).stopped == MemberAt(s, n).stopped
  {
  }

  lemma {:induction false} StoppedStays(lease: real, s: State, m: Node, actions: seq<Action>)
    requires MemberAt(s, m).stopped
    ensures MemberAt(Run(lease, s, actions), m).stopped
  {
    if actions != [] {
      StoppedStays(lease, s, m, actions[..|actions| - 1]);
    }
  }

  /** A failure ends leadership for as long as the node does nothing, whatever the others do. */
  lemma {:induction false} FailureStepsDown(lease: real, s: State, n: Node, later: seq<Action>)
    requires forall a :: a in later ==> Idle(a, n)
    ensures PhaseAt(Run(lease, Step(lease, s, Fail(n)), later), n).Standby?
    ensures !IsLeader(Run(lease, Step(lease, s, Fail(n)), later), n)
  {
    if later != [] {
      var init, last := later[..|later| - 1], later[|later| - 1];
      assert later == init + [last];
      assert last in later;
      FailureStepsDown(lease, s, n, init);
    }
  }

  // ----- Generations ---------------------------------------------------------------------------

  /** Generations are handed out in strictly increasing order, and each node's is one that was handed to it. */
  ghost predicate GenerationInv(counter: nat, s: State) {
    && s.counter == counter + |s.elections|
    && (forall i :: 0 <= i < |s.elections| ==> s.elections[i].1 == counter + i + 1)
    && (forall n :: HoldsOwnGeneration(counter, s, n))
  }

  ghost predicate HoldsOwnGeneration(counter: nat, s: State, n: Node) {
    PhaseAt(s, n).Numbered? || IsLeader(s, n) ==>
      && 0 <= PhaseAt(s, n).generation - counter - 1 < |s.elections|
      && s.elections[PhaseAt(s, n).generation - counter - 1].0 == n
  }

  lemma {:induction false} StepKeepsGenerations(lease: real, counter: nat, s: State, a: Action)
    requires GenerationInv(counter, s)
    ensures GenerationInv(counter, Step(lease, s, a))
  {
    forall n ensures HoldsOwnGeneration(counter, Step(lease, s, a), n) {
      assert HoldsOwnGeneration(counter, s, n) && HoldsOwnGeneration(counter, s, Actor(a));
    }
  }

  /** In any run, whatever the timing, no generation is handed out twice and no two nodes hold the same one. */
  lemma {:induction false} GenerationsAreDistinct(lease: real, start: real, counter: nat, actions: seq<Action>)
    ensures var s := Run(lease, Initial(start, counter), actions);
            && GenerationInv(counter, s)
            && (forall i, j :: 0 <= i < j < |s.elections| ==> s.elections[i].1 < s.elections[j].1)
            && (forall m, n :: m != n && IsLeader(s, m) && IsLeader(s, n) ==>
                PhaseAt(s, m).generation != PhaseAt(s, n).generation)
  {
    if actions != [] {
      GenerationsAreDistinct(lease, start, counter, actions[..|actions| - 1]);
      StepKeepsGenerations(lease, counter, Run(lease, Initial(start, counter), actions[..|actions| - 1]),
                           actions[|actions| - 1]);
    }
    var s := Run(lease, Initial(start, counter), actions);
    forall m, n | m != n && IsLeader(s, m) && IsLeader(s, n)
      ensures PhaseAt(s, m).generation != PhaseAt(s, n).generation
    {
      assert HoldsOwnGeneration(counter, s, m) && HoldsOwnGeneration(counter, s, n);
    }
  }

  // ----- Generations as fencing tokens ---------------------------------------------------------

  /** The node has a fresh claim and its generation. */
  predicate FreshAndNumbered(lease: real, s: State, n: Node) {
    Claims(s, n) && Fresh(lease, s, n) && !PhaseAt(s, n).Won?
  }

  /** A fresh claimant that has a generation has the latest. */
  ghost predicate LatestInv(lease: real, s: State) {
    forall n :: IsLatest(lease, s, n)
  }

  predicate IsLatest(lease: real, s: State, n: Node) {
    FreshAndNumbered(lease, s, n) ==> PhaseAt(s, n).generation == s.counter
  }

  /** A generation is drawn in time, or while no other node has a fresh claim and a generation. */
  ghost predicate DrawsInOrder(lease: real, s: State, a: Action) {
    a.Number? && PhaseAt(s, a.n).Won? ==>
      Fresh(lease, s, a.n) || forall n :: n != a.n ==> !FreshAndNumbered(lease, s, n)
  }

  lemma {:induction false} StepKeepsLatestIf(lease: real, s: State, a: Action)
    requires lease > 0.0 && LeaseInv(lease, s) && LatestInv(lease, s) && DrawsInOrder(lease, s, a)
    ensures LatestInv(lease, Step(lease, s, a))
  {
    forall n ensures IsLatest(lease, Step(lease, s, a), n) {
      assert IsLatest(lease, s, n) && IsLatest(lease, s, Actor(a));
      assert LeaseAt(lease, s, n) && LeaseAt(lease, s, Actor(a));
      assert n != Actor(a) && FreshAndNumbered(lease, Step(lease, s, a), n) ==> FreshAndNumbered(lease, s, n);
    }
  }

  /** A step keeps the latest generation with the fresh claimants exactly when it draws in order. */
  lemma {:induction false} StepKeepsLatestIff(lease: real, s: State, a: Action)
    requires lease > 0.0 && LeaseInv(lease, s) && LatestInv(lease, s)
    ensures LatestInv(lease, Step(lease, s, a)) <==> DrawsInOrder(lease, s, a)
  {
    if DrawsInOrder(lease, s, a) {
      StepKeepsLatestIf(lease, s, a);
    } else {
      var n :| n != a.n && FreshAndNumbered(lease, s, n);
      assert IsLatest(lease, s, n);
      assert !IsLatest(lease, Step(lease, s, a), n);
    }
  }

  ghost predicate AlwaysLatest(lease: real, s: State, actions: seq<Action>) {
    OfPrefixes(prefix => LatestInv(lease, Run(lease, s, prefix)), actions)
  }

  ghost predicate AlwaysInOrder(lease: real, s: State, actions: seq<Action>) {
    forall i :: 0 <= i < |actions| ==> DrawsInOrder(lease, Run(lease, s, actions[..i]), actions[i])
  }

  /**
   Fencing order: throughout a run every fresh claimant with a generation has the latest one, and so
   outranks all others, exactly when each generation is drawn either by a node whose lease is still
   fresh or while no other node has a fresh claim and a generation.
   */
  lemma {:induction false} FreshLeaderOutranksAllIff(lease: real, start: real, counter: nat, actions: seq<Action>)
    requires lease > 0.0
    ensures AlwaysLatest(lease, Initial(start, counter), actions) <==>
            AlwaysInOrder(lease, Initial(start, counter), actions)
  {
    if actions == [] {
      assert LatestInv(lease, Initial(start, counter));
      assert AlwaysLatest(lease, Initial(start, counter), actions);
    } else {
      var init, last := actions[..|actions| - 1], actions[|actions| - 1];
      FreshLeaderOutranksAllIff(lease, start, counter, init);
      RunKeepsLease(lease, start, counter, init);
      AlwaysSnoc(lease, Initial(start, counter), actions);
      if AlwaysLatest(lease, Initial(start, counter), init) {
        assert init[..|init|] == init;
        StepKeepsLatestIff(lease, Run(lease, Initial(start, counter), init), last);
      }
    }
  }

  lemma AlwaysSnoc(lease: real, s: State, actions: seq<Action>)
    requires actions != []
    ensures var init, last := actions[..|actions| - 1], actions[|actions| - 1];
            && Run(lease, s, actions) == Step(lease, Run(lease, s, init), last)
            && (AlwaysLatest(lease, s, actions) <==>
                AlwaysLatest(lease, s, init) && LatestInv(lease, Run(lease, s, actions)))
            && (AlwaysInOrder(lease, s, actions) <==>
                AlwaysInOrder(lease, s, init) && DrawsInOrder(lease, Run(lease, s, init), last))
  {
    PrefixSnoc(prefix => LatestInv(lease, Run(lease, s, prefix)), actions);
    InOrderSnoc(lease, s, actions);
  }

  /** What holds of every prefix. */
  ghost predicate OfPrefixes(holds: seq<Action> -> bool, actions: seq<Action>) {
    forall k :: 0 <= k <= |actions| ==> holds(actions[..k])
  }

  lemma PrefixSnoc(holds: seq<Action> -> bool, actions: seq<Action>)
    requires actions != []
    ensures OfPrefixes(holds, actions) <==> OfPrefixes(holds, actions[..|actions| - 1]) && holds(actions)
  {
    var init := actions[..|actions| - 1];
    assert actions[..|actions|] == actions;
    assert forall k :: 0 <= k <= |init| ==> init[..k] == actions[..k];
    assert forall k :: 0 <= k < |actions| ==> actions[..k] == init[..k];
  }

  lemma InOrderSnoc(lease: real, s: State, actions: seq<Action>)
    requires actions != []
    ensures var k := |actions| - 1;
            AlwaysInOrder(lease, s, actions) <==>
            AlwaysInOrder(lease, s, actions[..k]) && DrawsInOrder(lease, Run(lease, s, actions[..k]), actions[k])
  {
    var k := |actions| - 1;
    forall i | 0 <= i < k
      ensures DrawsInOrder(lease, Run(lease, s, actions[..k][..i]), actions[..k][i])
           == DrawsInOrder(lease, Run(lease, s, actions[..i]), actions[i])
    {
      assert actions[..k][..i] == actions[..i];
    }
  }

  /** Otherwise a node that lost the lock before it drew its generation outranks the node that owns the lock. */
  lemma {:induction false} StaleLeaderCanOutrankOwner(lease: real, start: real)
    requires lease > 0.0
    ensures var actions := [Acquire(0), Tick(lease), Acquire(1), Number(1), Elect(1), Number(0), Elect(0)];
            var s := Run(lease, Initial(start, 0), actions);
            && IsLeader(s, 0) && IsLeader(s, 1) && Owns(s, 1)
            && PhaseAt(s, 0).generation > PhaseAt(s, 1).generation
  {
    var actions := [Acquire(0), Tick(lease), Acquire(1), Number(1), Elect(1), Number(0), Elect(0)];
    RunOfSeven(lease, Initial(start, 0), actions);
  }
}
