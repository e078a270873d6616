/**
 The token bucket that throttles requests.

 Between two suspension points a coroutine runs alone, so any interleaving of waiters and observers
 is a sequence of atomic events in time order: a refill with an attempt to take tokens, or a refill only.
 */
module RateLimiter {
  import opened Common

  /** `rate` is tokens per second. */
  datatype Config = Config(maxRequests: int, windowSeconds: real, minWaitSeconds: real) {
    predicate Usable() {
      maxRequests >= 1 && windowSeconds > 0.0
    }

    function Capacity(): real {
      maxRequests as real
    }

    function Rate(): (r: real)
      requires Usable()
      ensures r > 0.0
    {
      maxRequests as real / windowSeconds
    }
  }

  datatype Bucket = Bucket(tokens: real, lastRefill: real)

  /** `Attempt` asks for `n` tokens; `Observe` is a call of `available()` or `stats()`. */
  datatype Event = Attempt(at: real, n: int) | Observe(at: real)

  /** The tokens that a stretch of time earns. */
  function Earned(c: Config, from: real, to: real): real
    requires c.Usable()
  {
    Part(to - from, c.Rate())
  }

  function Refill(c: Config, b: Bucket, now: real): Bucket
    requires c.Usable()
  {
    Bucket(Min(c.Capacity(), b.tokens + Earned(c, b.lastRefill, now)), now)
  }

  /** What an event takes from the bucket. */
  function Taken(c: Config, b: Bucket, e: Event): int
    requires c.Usable()
  {
    if e.Attempt? && e.n > 0 && Refill(c, b, e.at).tokens >= e.n as real then e.n else 0
  }

  /** An attempt for no tokens returns at once, without touching the bucket. */
  function Step(c: Config, b: Bucket, e: Event): Bucket
    requires c.Usable()
  {
    if e.Attempt? && e.n <= 0 then b
    else
      var r := Refill(c, b, e.at);
      r.(tokens := r.tokens - Taken(c, b, e) as real)
  }

  function Run(c: Config, b: Bucket, es: seq<Event>): Bucket
    requires c.Usable()
  {
    if es == [] then b else Step(c, Run(c, b, es[..|es| - 1]), es[|es| - 1])
  }

  /** Tokens taken by all the events. */
  function TotalTaken(c: Config, b: Bucket, es: seq<Event>): int
    requires c.Usable()
  {
    if es == [] then 0
    else TotalTaken(c, b, es[..|es| - 1]) + Taken(c, Run(c, b, es[..|es| - 1]), es[|es| - 1])
  }

  /** Events come in time order, from the bucket's last refill on. */
  ghost predicate InTimeOrder(b: Bucket, es: seq<Event>) {
    && (forall i :: 0 <= i < |es| ==> b.lastRefill <= es[i].at)
    && (forall i, j :: 0 <= i < j < |es| ==> es[i].at <= es[j].at)
  }

  predicate Filled(c: Config, b: Bucket) {
    0.0 <= b.tokens <= c.Capacity()
  }

  lemma TimeEarns(c: Config, from: real, mid: real, to: real)
    requires c.Usable() && from <= mid <= to
    ensures Earned(c, from, mid) >= 0.0 && Earned(c, mid, to) >= 0.0
    ensures Earned(c, from, mid) + Earned(c, mid, to) == Earned(c, from, to)
  {
    assert (mid - from) + (to - mid) == to - from;
  }

  lemma {:induction false} StepKeepsFilled(c: Config, b: Bucket, e: Event)
    requires c.Usable() && Filled(c, b) && b.lastRefill <= e.at
    ensures Filled(c, Step(c, b, e)) && b.lastRefill <= Step(c, b, e).lastRefill <= e.at
    ensures Taken(c, b, e) >= 0
  {
    TimeEarns(c, b.lastRefill, b.lastRefill, e.at);
  }

  /** The bucket never holds less than nothing or more than its capacity. */
  lemma {:induction false} RunKeepsFilled(c: Config, b: Bucket, es: seq<Event>)
    requires c.Usable() && Filled(c, b) && InTimeOrder(b, es)
    ensures Filled(c, Run(c, b, es)) && b.lastRefill <= Run(c, b, es).lastRefill
    ensures es != [] ==> Run(c, b, es).lastRefill <= es[|es| - 1].at
  {
    if es != [] {
      var init := es[..|es| - 1];
      RunKeepsFilled(c, b, init);
      if init != [] {
        assert init[|init| - 1] == es[|es| - 2];
      }
      StepKeepsFilled(c, Run(c, b, init), es[|es| - 1]);
    }
  }

  /** What is taken, and what is left, is paid for by what was there and what the time since has earned. */
  lemma {:induction false} TakenIsPaidFor(c: Config, b: Bucket, es: seq<Event>)
    requires c.Usable() && Filled(c, b) && InTimeOrder(b, es)
    ensures TotalTaken(c, b, es) as real + Run(c, b, es).tokens
         <= b.tokens + Earned(c, b.lastRefill, Run(c, b, es).lastRefill)
  {
    if es != [] {
      var init, e := es[..|es| - 1], es[|es| - 1];
      TakenIsPaidFor(c, b, init);
      RunKeepsFilled(c, b, init);
      var mid := Run(c, b, init);
      if init != [] {
        assert init[|init| - 1] == es[|es| - 2];
      }
      TimeEarns(c, b.lastRefill, mid.lastRefill, Step(c, mid, e).lastRefill);
    } else {
      TimeEarns(c, b.lastRefill, b.lastRefill, b.lastRefill);
    }
  }

  // ----- Refills in between do not matter ------------------------------------------------------

  /** Refilling on the way changes nothing about a later refill. */
  lemma {:induction false} RefillTwice(c: Config, b: Bucket, mid: real, now: real)
    requires c.Usable() && b.lastRefill <= mid <= now
    ensures Refill(c, Refill(c, b, mid), now) == Refill(c, b, now)
  {
    TimeEarns(c, b.lastRefill, mid, now);
  }

  /** Two buckets that a refill at time `t` makes the same. */
  ghost predicate Alike(c: Config, b: Bucket, d: Bucket, t: real)
    requires c.Usable()
  {
    b.lastRefill <= t && d.lastRefill <= t && Refill(c, b, t) == Refill(c, d, t)
  }

  lemma {:induction false} StaysAlike(c: Config, b: Bucket, d: Bucket, t: real, now: real)
    requires c.Usable() && Alike(c, b, d, t) && t <= now
    ensures Alike(c, b, d, now)
  {
    RefillTwice(c, b, t, now);
    RefillTwice(c, d, t, now);
  }

  /** Alike buckets give the same tokens to the same events. */
  lemma {:induction false} AlikeTakesSame(c: Config, b: Bucket, d: Bucket, t: real, es: seq<Event>)
    requires c.Usable() && Alike(c, b, d, t)
    requires forall i :: 0 <= i < |es| ==> t <= es[i].at
    requires forall i, j :: 0 <= i < j < |es| ==> es[i].at <= es[j].at
    ensures TotalTaken(c, b, es) == TotalTaken(c, d, es)
    ensures Alike(c, Run(c, b, es), Run(c, d, es), if es == [] then t else es[|es| - 1].at)
  {
    if es != [] {
      var init, e := es[..|es| - 1], es[|es| - 1];
      AlikeTakesSame(c, b, d, t, init);
      StaysAlike(c, Run(c, b, init), Run(c, d, init), if init == [] then t else es[|es| - 2].at, e.at);
    }
  }

  function WithoutObservers(es: seq<Event>): seq<Event> {
    if es == [] then []
    else WithoutObservers(es[..|es| - 1]) + if es[|es| - 1].Observe? then [] else [es[|es| - 1]]
  }

  lemma SameStep(c: Config, p: Bucket, q: Bucket, t: real, e: Event)
    requires c.Usable() && Alike(c, p, q, t) && t <= e.at
    ensures !e.Observe? ==> Taken(c, p, e) == Taken(c, q, e) && Alike(c, Step(c, p, e), Step(c, q, e), e.at)
    ensures e.Observe? ==> Taken(c, p, e) == 0 && Alike(c, Step(c, p, e), q, e.at)
  {
    StaysAlike(c, p, q, t, e.at);
  }

  lemma WithoutObserversSnoc(c: Config, b: Bucket, es: seq<Event>)
    requires c.Usable() && es != []
    ensures var init, e := es[..|es| - 1], es[|es| - 1];
            var all, rest := WithoutObservers(es), WithoutObservers(init);
            && (e.Observe? ==> all == rest)
            && (!e.Observe? ==> Run(c, b, all) == Step(c, Run(c, b, rest), e))
            && (!e.Observe? ==> TotalTaken(c, b, all) == TotalTaken(c, b, rest) + Taken(c, Run(c, b, rest), e))
  {
    var rest := WithoutObservers(es[..|es| - 1]);
    assert (rest + [es[|es| - 1]])[..|rest|] == rest;
  }

  /** Calls of `available()` and `stats()` never change what anyone gets, then or later. */
  lemma {:induction false} ObserversDoNotMatter(c: Config, b: Bucket, es: seq<Event>)
    requires c.Usable() && InTimeOrder(b, es)
    ensures TotalTaken(c, b, es) == TotalTaken(c, b, WithoutObservers(es))
    ensures Alike(c, Run(c, b, es), Run(c, b, WithoutObservers(es)), if es == [] then b.lastRefill else es[|es| - 1].at)
  {
    if es != [] {
      var init, e := es[..|es| - 1], es[|es| - 1];
      ObserversDoNotMatter(c, b, init);
      WithoutObserversSnoc(c, b, es);
      var t := if init == [] then b.lastRefill else es[|es| - 2].at;
      SameStep(c, Run(c, b, init), Run(c, b, WithoutObservers(init)), t, e);
    }
  }

  // ----- The bound over every window -----------------------------------------------------------

  /**
   For any interleaving and any stretch of it: the tokens taken by events from the first to the last
   are at most a full bucket plus what the time between those two events earns.
   */
  lemma {:induction false} WindowBound(c: Config, b: Bucket, before: seq<Event>, within: seq<Event>)
    requires c.Usable() && Filled(c, b) && InTimeOrder(b, before + within)
    requires within != []
    ensures TotalTaken(c, Run(c, b, before), within) as real
         <= c.Capacity() + Earned(c, within[0].at, within[|within| - 1].at)
  {
    var all := before + within;
    assert forall i :: 0 <= i < |before| ==> before[i] == all[i];
    assert forall i :: 0 <= i < |within| ==> within[i] == all[|before| + i];
    RunKeepsFilled(c, b, before);
    WindowBoundFrom(c, Run(c, b, before), within);
  }

  lemma {:induction false} WindowBoundFrom(c: Config, start: Bucket, within: seq<Event>)
    requires c.Usable() && Filled(c, start) && InTimeOrder(start, within)
    requires within != []
    ensures TotalTaken(c, start, within) as real <= c.Capacity() + Earned(c, within[0].at, within[|within| - 1].at)
  {
    var first, last := within[0].at, within[|within| - 1].at;
    var topped := Refill(c, start, first);
    TimeEarns(c, start.lastRefill, start.lastRefill, first);
    RefillTwice(c, start, first, first);
    AlikeTakesSame(c, start, topped, first, within);
    TakenIsPaidFor(c, topped, within);
    RunKeepsFilled(c, topped, within);
    var end := Run(c, topped, within).lastRefill;
    TimeEarns(c, first, end, last);
  }

  /** More tokens than the bucket can hold are never granted. */
  lemma {:induction false} OversizedNeverGranted(c: Config, b: Bucket, es: seq<Event>, e: Event)
    requires c.Usable() && Filled(c, b) && InTimeOrder(b, es + [e])
    requires e.Attempt? && e.n > c.maxRequests
    ensures Taken(c, Run(c, b, es), e) == 0
  {
  }

  /** An empty bucket fills evenly over one window, and a bucket that was left alone for that long is full. */
  lemma {:induction false} FullAfterWindow(c: Config, b: Bucket, now: real)
    requires c.Usable() && Filled(c, b) && b.lastRefill <= now
    ensures b.tokens == 0.0 && now <= b.lastRefill + c.windowSeconds ==>
            Part(Refill(c, b, now).tokens, c.windowSeconds) == Part(now - b.lastRefill, c.maxRequests as real)
    ensures now >= b.lastRefill + c.windowSeconds ==> Refill(c, b, now).tokens == c.maxRequests as real
  {
  }

  /** So no stretch of one window grants more than twice the requests that are meant for it, whatever the timing. */
  lemma {:induction false} AtMostTwicePerWindow(c: Config, b: Bucket, before: seq<Event>, within: seq<Event>)
    requires c.Usable() && Filled(c, b) && InTimeOrder(b, before + within) && within != []
    requires within[|within| - 1].at <= within[0].at + c.windowSeconds
    ensures TotalTaken(c, Run(c, b, before), within) <= 2 * c.maxRequests
  {
    WindowBound(c, b, before, within);
  }

  /** That many can be granted: a full bucket gives all it holds, and a window later as much again. */
  lemma {:induction false} TwicePerWindow(c: Config, start: real)
    requires c.Usable()
    ensures TotalTaken(c, Bucket(c.Capacity(), start),
                       [Attempt(start, c.maxRequests), Attempt(start + c.windowSeconds, c.maxRequests)])
         == 2 * c.maxRequests
  {
    var b := Bucket(c.Capacity(), start);
    var es := [Attempt(start, c.maxRequests), Attempt(start + c.windowSeconds, c.maxRequests)];
    assert es[..1] == [es[0]] && es[..1][..0] == [];
    TimeEarns(c, start, start, start);
    var emptied := Step(c, b, es[0]);
    assert emptied == Bucket(0.0, start) && Taken(c, b, es[0]) == c.maxRequests;
    FullAfterWindow(c, emptied, start + c.windowSeconds);
    assert Run(c, b, es[..1]) == emptied && TotalTaken(c, b, es[..1]) == c.maxRequests;
    assert Taken(c, emptied, es[1]) == c.maxRequests;
    assert TotalTaken(c, b, es) == TotalTaken(c, b, es[..1]) + Taken(c, Run(c, b, es[..1]), es[1]);
  }

  // ----- The limiter ---------------------------------------------------------------------------

  function Wait(c: Config, b: Bucket, n: int): (w: real)
    requires c.Usable()
  {
    Max((n as real - b.tokens) / c.Rate(), c.minWaitSeconds)
  }

  /** After sleeping the computed wait, with nobody else about, the tokens are there if the bucket can hold them. */
  lemma {:induction false} WaitSuffices(c: Config, b: Bucket, n: int, now: real)
    requires c.Usable() && now >= b.lastRefill + Wait(c, b, n)
    ensures n <= c.maxRequests ==> Refill(c, b, now).tokens >= n as real
  {
  }

  /** A shorter one would not do, unless it is for the least wait only. */
  lemma {:induction false} WaitIsNeeded(c: Config, b: Bucket, n: int, now: real)
    requires c.Usable() && b.tokens < n as real && b.lastRefill <= now < b.lastRefill + Wait(c, b, n)
    ensures Refill(c, b, now).tokens < n as real || now < b.lastRefill + c.minWaitSeconds
  {
  }

  /** What others do to the bucket during the i-th sleep, from one time to another. */
  type Others = (nat, real, real) -> seq<Event>

  ghost predicate Within(es: seq<Event>, from: real, to: real) {
    && (forall i :: 0 <= i < |es| ==> from <= es[i].at <= to)
    && (forall i, j :: 0 <= i < j < |es| ==> es[i].at <= es[j].at)
  }

  /** Others act in time order, while the sleep lasts. */
  ghost predicate Orderly(others: Others) {
    forall i: nat, from: real, to: real :: from <= to ==> Within(others(i, from, to), from, to)
  }

  ghost predicate AllObserve(es: seq<Event>) {
    forall i :: 0 <= i < |es| ==> es[i].Observe?
  }

  /** Nobody else takes tokens. */
  ghost predicate OnlyObserve(others: Others) {
    forall i: nat, from: real, to: real :: AllObserve(others(i, from, to))
  }

  /** When a caller that found the bucket so wakes from its i-th sleep. */
  type Sleeper = (Bucket, nat) -> real

  /** A sleep lasts the computed wait at least. */
  ghost predicate SleepsEnough(c: Config, n: int, wake: Sleeper)
    requires c.Usable()
  {
    forall s: Bucket, i: nat {:trigger wake(s, i), Wait(c, s, n)} ::
      s.tokens < n as real ==> wake(s, i) >= s.lastRefill + Wait(c, s, n)
  }

  /**
   All that happens to the bucket `s` while a caller waits for `n` tokens: its tries, each at the time
   of a refill, and what others do while it sleeps. It gives up only after `limit` sleeps.
   */
  function Story(c: Config, s: Bucket, n: int, wake: Sleeper, limit: nat, others: Others, i: nat): (es: seq<Event>)
    requires c.Usable() && i <= limit
    ensures es != [] && es[|es| - 1].Attempt? && es[|es| - 1].n == n
    decreases limit - i
  {
    if s.tokens >= n as real || i == limit then [Attempt(s.lastRefill, n)]
    else
      var between := others(i, s.lastRefill, wake(s, i));
      [Attempt(s.lastRefill, n)] + between
      + Story(c, Refill(c, Run(c, s, between), wake(s, i)), n, wake, limit, others, i + 1)
  }

  lemma {:induction false} RunAppend(c: Config, b: Bucket, es: seq<Event>, fs: seq<Event>)
    requires c.Usable()
    ensures Run(c, b, es + fs) == Run(c, Run(c, b, es), fs)
    ensures TotalTaken(c, b, es + fs) == TotalTaken(c, b, es) + TotalTaken(c, Run(c, b, es), fs)
  {
    if fs == [] {
      assert es + fs == es;
    } else {
      assert (es + fs)[..|es + fs| - 1] == es + fs[..|fs| - 1];
      RunAppend(c, b, es, fs[..|fs| - 1]);
    }
  }

  /** So far `done` has happened to the bucket `b`, and taken `taken`; a refill since has made it `now`. */
  ghost predicate Reached(c: Config, b: Bucket, done: seq<Event>, taken: int, now: Bucket)
    requires c.Usable()
  {
    && InTimeOrder(b, done) && Filled(c, Run(c, b, done))
    && Run(c, b, done).lastRefill <= now.lastRefill && b.lastRefill <= now.lastRefill
    && (done != [] ==> done[|done| - 1].at <= now.lastRefill)
    && now == Refill(c, Run(c, b, done), now.lastRefill)
    && taken == TotalTaken(c, b, done)
  }

  lemma ReachedInOrder(b: Bucket, done: seq<Event>, more: seq<Event>, from: real, to: real)
    requires InTimeOrder(b, done) && Within(more, from, to) && b.lastRefill <= from
    requires done != [] ==> done[|done| - 1].at <= from
    ensures InTimeOrder(b, done + more)
  {
    forall i | 0 <= i < |done| ensures done[i].at <= from {
      assert i < |done| - 1 ==> done[i].at <= done[|done| - 1].at;
    }
  }

  /** A try at the time of the last refill finds what the bucket shows. */
  lemma {:induction false} TryNow(c: Config, b: Bucket, done: seq<Event>, taken: int, now: Bucket, n: int)
    requires c.Usable() && n > 0 && Filled(c, b) && Reached(c, b, done, taken, now)
    ensures var more := done + [Attempt(now.lastRefill, n)];
            && InTimeOrder(b, more)
            && Run(c, b, more) == (if now.tokens >= n as real then now.(tokens := now.tokens - n as real) else now)
            && TotalTaken(c, b, more) == taken + if now.tokens >= n as real then n else 0
  {
    var try := [Attempt(now.lastRefill, n)];
    ReachedInOrder(b, done, try, now.lastRefill, now.lastRefill);
    assert (done + try)[..|done|] == done;
  }

  /** A vain try, a sleep in which others act, and the refill on waking. */
  lemma {:induction false} SleepOn(
    c: Config, b: Bucket, done: seq<Event>, taken: int, now: Bucket, n: int, between: seq<Event>, clock: real)
    requires c.Usable() && n > 0 && Filled(c, b) && Filled(c, now) && Reached(c, b, done, taken, now)
    requires now.tokens < n as real && now.lastRefill <= clock && Within(between, now.lastRefill, clock)
    ensures var after := Run(c, now, between);
            && Filled(c, after) && after.lastRefill <= clock
            && Reached(c, b, done + [Attempt(now.lastRefill, n)] + between,
                       taken + TotalTaken(c, now, between), Refill(c, after, clock))
  {
    TryNow(c, b, done, taken, now, n);
    var tried := done + [Attempt(now.lastRefill, n)];
    ReachedInOrder(b, tried, between, now.lastRefill, clock);
    RunAppend(c, b, tried, between);
    RunKeepsFilled(c, now, between);
    RunKeepsFilled(c, b, tried + between);
  }

  /** When others only look, waking up is as if they were not there. */
  lemma {:induction false} AloneWaitSuffices(c: Config, s: Bucket, n: int, between: seq<Event>, clock: real)
    requires c.Usable() && s.lastRefill <= clock && clock >= s.lastRefill + Wait(c, s, n)
    requires AllObserve(between) && Within(between, s.lastRefill, clock)
    ensures n <= c.maxRequests ==> Refill(c, Run(c, s, between), clock).tokens >= n as real
    ensures TotalTaken(c, s, between) == 0
  {
    WaitSuffices(c, s, n, clock);
    NoneLeft(between);
    ObserversDoNotMatter(c, s, between);
    StaysAlike(c, Run(c, s, between), s, if between == [] then s.lastRefill else between[|between| - 1].at, clock);
  }

  lemma {:induction false} NoneLeft(es: seq<Event>)
    requires AllObserve(es)
    ensures WithoutObservers(es) == []
  {
    if es != [] {
      NoneLeft(es[..|es| - 1]);
    }
  }

  /** With `done` behind it and `now` the bucket, the caller still has its i-th sleep of the whole story to come. */
  ghost predicate Tells(
    c: Config, whole: seq<Event>, done: seq<Event>, now: Bucket, n: int, wake: Sleeper, limit: nat,
    others: Others, i: nat)
    requires c.Usable() && i <= limit
  {
    whole == done + Story(c, now, n, wake, limit, others, i)
  }

  lemma StoryGoesOn(
    c: Config, whole: seq<Event>, done: seq<Event>, now: Bucket, n: int, wake: Sleeper, limit: nat,
    others: Others, i: nat)
    requires c.Usable() && i < limit && now.tokens < n as real && Tells(c, whole, done, now, n, wake, limit, others, i)
    ensures var between := others(i, now.lastRefill, wake(now, i));
            Tells(c, whole, done + [Attempt(now.lastRefill, n)] + between,
                  Refill(c, Run(c, now, between), wake(now, i)), n, wake, limit, others, i + 1)
  {
    var between := others(i, now.lastRefill, wake(now, i));
    Regroup(done, [Attempt(now.lastRefill, n)], between,
            Story(c, Refill(c, Run(c, now, between), wake(now, i)), n, wake, limit, others, i + 1));
  }

  lemma Regroup(a: seq<Event>, b: seq<Event>, c: seq<Event>, d: seq<Event>)
    ensures a + (b + c + d) == a + b + c + d
  {
  }

  lemma StoryEnds(
    c: Config, whole: seq<Event>, done: seq<Event>, now: Bucket, n: int, wake: Sleeper, limit: nat,
    others: Others, i: nat)
    requires c.Usable() && i <= limit && Tells(c, whole, done, now, n, wake, limit, others, i)
    requires now.tokens >= n as real || i == limit
    ensures whole == done + [Attempt(now.lastRefill, n)]
  {
  }

  lemma StartReached(c: Config, b: Bucket, now: real)
    requires c.Usable() && Filled(c, b) && b.lastRefill <= now
    ensures Reached(c, b, [], 0, Refill(c, b, now))
  {
  }

  /** What a sleep is long enough for. */
  lemma AwakeInTime(c: Config, s: Bucket, n: int, wake: Sleeper, others: Others, i: nat, alone: bool)
    requires c.Usable() && s.tokens < n as real && Orderly(others) && SleepsEnough(c, n, wake)
    requires alone ==> OnlyObserve(others)
    ensures s.lastRefill <= wake(s, i) && Within(others(i, s.lastRefill, wake(s, i)), s.lastRefill, wake(s, i))
    ensures alone ==>
              var between := others(i, s.lastRefill, wake(s, i));
              && TotalTaken(c, s, between) == 0
              && (n <= c.maxRequests ==> Refill(c, Run(c, s, between), wake(s, i)).tokens >= n as real)
  {
    assert wake(s, i) >= s.lastRefill + Wait(c, s, n);
    if alone {
      AloneWaitSuffices(c, s, n, others(i, s.lastRefill, wake(s, i)), wake(s, i));
    }
  }

  /** The last event of the story is granted so many tokens. */
  ghost predicate LastGrants(c: Config, b: Bucket, story: seq<Event>, granted: int)
    requires c.Usable()
  {
    story != [] && Taken(c, Run(c, b, story[..|story| - 1]), story[|story| - 1]) == granted
  }

  lemma {:induction false} LastTry(c: Config, b: Bucket, done: seq<Event>, taken: int, now: Bucket, n: int)
    requires c.Usable() && n > 0 && Filled(c, b) && Reached(c, b, done, taken, now)
    ensures var story := done + [Attempt(now.lastRefill, n)];
            && InTimeOrder(b, story)
            && Run(c, b, story) == (if now.tokens >= n as real then now.(tokens := now.tokens - n as real) else now)
            && TotalTaken(c, b, story) == taken + (if now.tokens >= n as real then n else 0)
            && LastGrants(c, b, story, if now.tokens >= n as real then n else 0)
  {
    TryNow(c, b, done, taken, now, n);
    assert (done + [Attempt(now.lastRefill, n)])[..|done|] == done;
  }

  class AlpacaRateLimiter {
    const config: Config
    var tokens: real
    var lastRefill: real
    var totalAcquired: int

    ghost predicate Valid()
      reads this
    {
      config.Usable() && Filled(config, State())
    }

    function State(): Bucket
      reads this
    {
      Bucket(tokens, lastRefill)
    }

    constructor (config: Config, now: real)
      requires config.Usable()
      ensures Valid() && this.config == config && State() == Bucket(config.Capacity(), now) && totalAcquired == 0
    {
      this.config, tokens, lastRefill, totalAcquired := config, config.maxRequests as real, now, 0;
    }

    method DoRefill(now: real)
      requires Valid() && lastRefill <= now
      modifies this`tokens, this`lastRefill
      ensures Valid() && State() == Refill(config, old(State()), now)
    {
      TimeEarns(config, lastRefill, lastRefill, now);
      var elapsed := now - lastRefill;
      var rate := config.maxRequests as real / config.windowSeconds;
      tokens := Min(config.Capacity(), tokens + elapsed * rate);
      lastRefill := now;
    }

    method Available(now: real) returns (count: real)
      requires Valid() && lastRefill <= now
      modifies this`tokens, this`lastRefill
      ensures Valid() && State() == Step(config, old(State()), Observe(now))
      ensures count == Refill(config, old(State()), now).tokens
    {
      DoRefill(now);
      count := Max(tokens, 0.0);
    }

    /** What others do while the caller is suspended. */
    method LetOthers(es: seq<Event>)
      requires Valid() && InTimeOrder(State(), es)
      modifies this
      ensures Valid() && State() == Run(config, old(State()), es)
      ensures es == [] || lastRefill <= es[|es| - 1].at
      ensures totalAcquired == old(totalAcquired) + TotalTaken(config, old(State()), es)
    {
      RunKeepsFilled(config, State(), es);
      var taken, bucket := TotalTaken(config, State(), es), Run(config, State(), es);
      tokens, lastRefill := bucket.tokens, bucket.lastRefill;
      totalAcquired := totalAcquired + taken;
    }

    /** Sleep the wait for `n` tokens at least, while others act, and refill. */
    method Sleep(n: int, wake: Sleeper, others: Others, i: nat)
      requires Valid() && tokens < n as real && Orderly(others) && SleepsEnough(config, n, wake)
      modifies this
      ensures Valid()
      ensures var s := old(State());
              var between := others(i, s.lastRefill, wake(s, i));
              && s.lastRefill <= wake(s, i)
              && State() == Refill(config, Run(config, s, between), wake(s, i))
              && totalAcquired == old(totalAcquired) + TotalTaken(config, s, between)
    {
      var wait, clock := Wait(config, State(), n), wake(State(), i);
      assert clock >= lastRefill + wait;
      var between := others(i, lastRefill, clock);
      assert Within(between, lastRefill, clock);
      LetOthers(between);
      DoRefill(clock);
    }

    /**
     Acquire `n` tokens, sleeping at least the wait it computes each time; `others` is what happens
     meanwhile. The call is given up only after `limit` sleeps. `story` is all that happened to the bucket.
     */
    method Acquire(n: int, now: real, wake: Sleeper, limit: nat, others: Others)
      returns (acquired: bool, sleeps: nat, ghost story: seq<Event>)
      requires Valid() && lastRefill <= now && Orderly(others) && SleepsEnough(config, n, wake)
      modifies this
      ensures Valid() && InTimeOrder(old(State()), story) && State() == Run(config, old(State()), story)
      ensures totalAcquired == old(totalAcquired) + TotalTaken(config, old(State()), story)
      ensures story == if n <= 0 then []
              else Story(config, Refill(config, old(State()), now), n, wake, limit, others, 0)
      ensures n <= 0 ==> acquired && sleeps == 0
      ensures n > 0 ==> LastGrants(config, old(State()), story, if acquired then n else 0)
      ensures OnlyObserve(others) ==>
                && totalAcquired == old(totalAcquired) + (if acquired && n > 0 then n else 0)
                && (n <= config.maxRequests ==> sleeps <= 1 && (limit > 0 ==> acquired))
      ensures n > config.maxRequests && n > 0 ==> !acquired && sleeps == limit
    {
      acquired, sleeps, story := true, 0, [];
      if n > 0 {
        acquired, sleeps, story := AcquireSome(n, now, wake, limit, others);
      }
    }

    /** Refill, wait, and take the tokens or give up. */
    method AcquireSome(n: int, now: real, wake: Sleeper, limit: nat, others: Others)
      returns (acquired: bool, sleeps: nat, ghost story: seq<Event>)
      requires Valid() && lastRefill <= now && Orderly(others) && SleepsEnough(config, n, wake) && n > 0
      modifies this
      ensures Valid() && InTimeOrder(old(State()), story) && State() == Run(config, old(State()), story)
      ensures totalAcquired == old(totalAcquired) + TotalTaken(config, old(State()), story)
      ensures story == Story(config, Refill(config, old(State()), now), n, wake, limit, others, 0)
      ensures LastGrants(config, old(State()), story, if acquired then n else 0)
      ensures OnlyObserve(others) ==>
                && totalAcquired == old(totalAcquired) + (if acquired then n else 0)
                && (n <= config.maxRequests ==> sleeps <= 1 && (limit > 0 ==> acquired))
      ensures n > config.maxRequests ==> !acquired && sleeps == limit
    {
      ghost var b, before := State(), totalAcquired;
      StartReached(config, b, now);
      DoRefill(now);
      sleeps, story := WaitForTokens(n, wake, limit, others, b);
      if n > config.maxRequests {
        assert tokens < n as real;
      }
      LastTry(config, b, story, totalAcquired - before, State(), n);
      story := story + [Attempt(lastRefill, n)];
      acquired := Take(n);
    }

    /** The waiting loop. */
    method WaitForTokens(n: int, wake: Sleeper, limit: nat, others: Others, ghost b: Bucket)
      returns (sleeps: nat, ghost story: seq<Event>)
      requires Valid() && n > 0 && Orderly(others) && SleepsEnough(config, n, wake)
      requires Filled(config, b) && Reached(config, b, [], 0, State())
      modifies this
      ensures Valid() && sleeps <= limit && (tokens >= n as real || sleeps == limit)
      ensures Reached(config, b, story, totalAcquired - old(totalAcquired), State())
      ensures story + [Attempt(lastRefill, n)] == Story(config, old(State()), n, wake, limit, others, 0)
      ensures OnlyObserve(others) ==>
                && totalAcquired == old(totalAcquired)
                && (n <= config.maxRequests ==> sleeps <= 1 && (limit > 0 ==> tokens >= n as real))
    {
      sleeps, story := 0, [];
      ghost var before, alone := totalAcquired, OnlyObserve(others);
      ghost var whole := Story(config, State(), n, wake, limit, others, 0);
      ghost var fits, enough := n <= config.maxRequests, false;
      assert [] + whole == whole;
      while tokens < n as real && sleeps < limit
        invariant Valid() && sleeps <= limit
        invariant Reached(config, b, story, totalAcquired - before, State())
        invariant Tells(config, whole, story, State(), n, wake, limit, others, sleeps)
        invariant alone ==> totalAcquired == before
        invariant alone && fits && sleeps > 0 ==> sleeps == 1 && enough
        invariant enough ==> tokens >= n as real
        decreases limit - sleeps
      {
        story := WaitOnce(n, wake, limit, others, sleeps, b, story, before, whole, alone);
        enough := tokens >= n as real;
        sleeps := sleeps + 1;
      }
      StoryEnds(config, whole, story, State(), n, wake, limit, others, sleeps);
    }

    /** The body of the waiting loop, and how the story goes on. */
    method WaitOnce(n: int, wake: Sleeper, limit: nat, others: Others, i: nat, ghost b: Bucket,
                    ghost story: seq<Event>, ghost before: int, ghost whole: seq<Event>, ghost alone: bool)
      returns (ghost more: seq<Event>)
      requires Valid() && n > 0 && tokens < n as real && Orderly(others) && SleepsEnough(config, n, wake)
      requires i < limit && Filled(config, b) && Reached(config, b, story, totalAcquired - before, State())
      requires Tells(config, whole, story, State(), n, wake, limit, others, i)
      requires alone ==> OnlyObserve(others)
      modifies this
      ensures Valid() && Reached(config, b, more, totalAcquired - before, State())
      ensures Tells(config, whole, more, State(), n, wake, limit, others, i + 1)
      ensures alone ==> totalAcquired == old(totalAcquired) && (n <= config.maxRequests ==> tokens >= n as real)
    {
      ghost var s := State();
      ghost var clock := wake(s, i);
      ghost var between := others(i, s.lastRefill, clock);
      AwakeInTime(config, s, n, wake, others, i, alone);
      SleepOn(config, b, story, totalAcquired - before, s, n, between, clock);
      StoryGoesOn(config, whole, story, s, n, wake, limit, others, i);
      Sleep(n, wake, others, i);
      more := story + [Attempt(s.lastRefill, n)] + between;
    }

    /** Take `n` tokens if they are there. */
    method Take(n: int) returns (acquired: bool)
      requires Valid() && n > 0
      modifies this`tokens, this`totalAcquired
      ensures Valid() && acquired == (old(tokens) >= n as real)
      ensures State() == if acquired then old(State()).(tokens := old(tokens) - n as real) else old(State())
      ensures totalAcquired == old(totalAcquired) + if acquired then n else 0
    {
      acquired := tokens >= n as real;
      if acquired {
        tokens := tokens - n as real;
        totalAcquired := totalAcquired + n;
      }
    }
  }
}
