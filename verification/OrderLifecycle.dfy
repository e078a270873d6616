/**
 The lifecycle of one order and its reorder buffer, as values.

 A `Slot` is everything the order state machine keeps about one order id: the record and the
 buffer of updates that arrived out of turn. `Deliver` is one ordered delivery and `Drain` the
 replay of consecutively buffered updates. The lemmas say what a whole stream of deliveries
 amounts to, whatever its order and however often each update is repeated.
 */
module OrderLifecycle {
  import opened Common

  datatype OrderState = NEW | SENT | ACK | PARTIAL | FILLED | CANCELED | REJECTED | EXPIRED

  predicate IsTerminal(s: OrderState) {
    s in {FILLED, CANCELED, REJECTED, EXPIRED}
  }

  function Allowed(s: OrderState): set<OrderState> {
    match s
    case NEW => {SENT, CANCELED}
    case SENT => {ACK, REJECTED, CANCELED}
    case ACK => {PARTIAL, FILLED, CANCELED, EXPIRED}
    case PARTIAL => {FILLED, CANCELED, EXPIRED}
    case _ => {}
  }

  /** The payload of a transition: a target state and the optional fields it overwrites. */
  datatype Update = Update(
    target: OrderState,
    brokerOrderId: Option<string>,
    filledQty: Option<real>,
    fillPrice: Option<real>,
    error: Option<string>)

  datatype Order = Order(
    symbol: string,
    strategyName: string,
    state: OrderState,
    brokerOrderId: Option<string>,
    submittedQty: int,
    filledQty: real,
    fillPrice: Option<real>,
    lastError: Option<string>,
    lastSeq: int)

  /** Text fields are overwritten only by non-empty text. */
  function Given(text: Option<string>, kept: Option<string>): Option<string> {
    if text.Some? && text.value != "" then text else kept
  }

  predicate Accepts(o: Order, u: Update) {
    !IsTerminal(o.state) && u.target in Allowed(o.state)
  }

  function Apply(o: Order, u: Update): Order {
    o.(state := u.target,
       brokerOrderId := Given(u.brokerOrderId, o.brokerOrderId),
       filledQty := if u.filledQty.Some? then u.filledQty.value else o.filledQty,
       fillPrice := if u.fillPrice.Some? then u.fillPrice else o.fillPrice,
       lastError := Given(u.error, o.lastError))
  }

  /** The moves an order can make, one by one. */
  const EDGES: set<(OrderState, OrderState)> := {
    (NEW, SENT), (NEW, CANCELED),
    (SENT, ACK), (SENT, REJECTED), (SENT, CANCELED),
    (ACK, PARTIAL), (ACK, FILLED), (ACK, CANCELED), (ACK, EXPIRED),
    (PARTIAL, FILLED), (PARTIAL, CANCELED), (PARTIAL, EXPIRED)
  }

  lemma AcceptsAlongEdges(o: Order, u: Update)
    ensures Accepts(o, u) <==> (o.state, u.target) in EDGES
  {
  }

  /** A finished order is one that no move leaves. */
  lemma {:induction false} TerminalIffNoEdge(s: OrderState)
    ensures IsTerminal(s) <==> forall t :: (s, t) !in EDGES
  {
    if !IsTerminal(s) {
      assert (s, CANCELED) in EDGES;
    }
  }

  /** Apply the update that carries the next sequence number. */
  function Advance(o: Order, u: Update): Order {
    Apply(o, u).(lastSeq := o.lastSeq + 1)
  }

  datatype Slot = Slot(order: Order, buffer: map<int, Update>)

  function Drain(s: Slot): (r: Slot)
    ensures r.order.lastSeq >= s.order.lastSeq
    decreases |s.buffer|
  {
    var next := s.order.lastSeq + 1;
    if next !in s.buffer then s
    else
      var rest := s.buffer - {next};
      if Accepts(s.order, s.buffer[next]) then
        Drain(Slot(Advance(s.order, s.buffer[next]), rest))
      else
        Slot(s.order, rest)
  }

  /** Whether a delivery is applied at once. */
  predicate Applies(s: Slot, seqNo: int, u: Update) {
    seqNo == s.order.lastSeq + 1 && Accepts(s.order, u)
  }

  function Deliver(s: Slot, seqNo: int, u: Update): (r: Slot)
    ensures r.order.lastSeq >= s.order.lastSeq
  {
    if Applies(s, seqNo, u) then Drain(Slot(Advance(s.order, u), s.buffer))
    else if seqNo == s.order.lastSeq || seqNo == s.order.lastSeq + 1 then s
    else s.(buffer := s.buffer[seqNo := u])
  }

  datatype Delivery = Delivery(seqNo: int, update: Update)

  function DeliverAll(s: Slot, es: seq<Delivery>): (r: Slot)
    ensures r.order.lastSeq >= s.order.lastSeq
  {
    if es == [] then s
    else
      var before := DeliverAll(s, es[..|es| - 1]);
      Deliver(before, es[|es| - 1].seqNo, es[|es| - 1].update)
  }

  // ----- Buffered entries that can still matter ------------------------------------------------

  /** The slot without the entries at or below the last applied sequence number. */
  function Live(s: Slot): Slot {
    s.(buffer := map k | k in s.buffer && k > s.order.lastSeq :: s.buffer[k])
  }

  /** A delivery seen by a slot that keeps no stale entries. */
  function Absorb(s: Slot, e: Delivery): Slot {
    if e.seqNo <= s.order.lastSeq then s else Live(Deliver(s, e.seqNo, e.update))
  }

  function AbsorbAll(s: Slot, es: seq<Delivery>): Slot {
    if es == [] then s else Absorb(AbsorbAll(s, es[..|es| - 1]), es[|es| - 1])
  }

  lemma {:induction false} LiveDrain(s: Slot)
    ensures Live(Drain(s)) == Drain(Live(s))
    decreases |s.buffer|
  {
    var next := s.order.lastSeq + 1;
    if next in s.buffer {
      var rest := s.buffer - {next};
      assert Live(s).buffer - {next} == Live(Slot(s.order, rest)).buffer;
      if Accepts(s.order, s.buffer[next]) {
        var t := Slot(Advance(s.order, s.buffer[next]), rest);
        LiveDrain(t);
        assert Live(s).buffer - {next} == Live(t).buffer;
      }
    }
  }

  lemma {:induction false} LiveDeliver(s: Slot, e: Delivery)
    ensures Live(Deliver(s, e.seqNo, e.update)) == Absorb(Live(s), e)
  {
    var o := s.order;
    if Applies(s, e.seqNo, e.update) {
      var t := Slot(Advance(o, e.update), s.buffer);
      var t' := Slot(t.order, Live(s).buffer);
      LiveDrain(t);
      LiveDrain(t');
      assert Live(t).buffer == Live(t').buffer;
    } else if e.seqNo == o.lastSeq + 1 {
      assert Live(Live(s)).buffer == Live(s).buffer;
    } else if e.seqNo != o.lastSeq {
      assert Live(Deliver(s, e.seqNo, e.update)).buffer == Absorb(Live(s), e).buffer;
    }
  }

  lemma {:induction false} LiveDeliverAll(s: Slot, es: seq<Delivery>)
    ensures Live(DeliverAll(s, es)) == AbsorbAll(Live(s), es)
  {
    if es != [] {
      LiveDeliverAll(s, es[..|es| - 1]);
      LiveDeliver(DeliverAll(s, es[..|es| - 1]), es[|es| - 1]);
    }
  }

  /** What the source's documentation calls late events: they stay buffered and are never replayed. */
  lemma {:induction false} StaleNeverReplayed(s: Slot, es: seq<Delivery>)
    ensures DeliverAll(s, es).order == DeliverAll(Live(s), es).order
    ensures Live(DeliverAll(s, es)) == Live(DeliverAll(Live(s), es))
    ensures forall k :: k in s.buffer && k < s.order.lastSeq ==> k in DeliverAll(s, es).buffer
  {
    assert Live(Live(s)).buffer == Live(s).buffer;
    LiveDeliverAll(s, es);
    LiveDeliverAll(Live(s), es);
    StaleStays(s, es);
  }

  lemma {:induction false} StaleStays(s: Slot, es: seq<Delivery>)
    ensures forall k :: k in s.buffer && k < s.order.lastSeq ==> k in DeliverAll(s, es).buffer
  {
    if es != [] {
      var e := es[|es| - 1];
      var t := DeliverAll(s, es[..|es| - 1]);
      StaleStays(s, es[..|es| - 1]);
      if Applies(t, e.seqNo, e.update) {
        DrainKeepsBelow(Slot(Advance(t.order, e.update), t.buffer));
      }
    }
  }

  lemma {:induction false} DrainKeepsBelow(s: Slot)
    ensures forall k :: k in s.buffer && k <= s.order.lastSeq ==> k in Drain(s).buffer
    decreases |s.buffer|
  {
    var next := s.order.lastSeq + 1;
    if next in s.buffer && Accepts(s.order, s.buffer[next]) {
      DrainKeepsBelow(Slot(Advance(s.order, s.buffer[next]), s.buffer - {next}));
    }
  }

  // ----- Confluence ----------------------------------------------------------------------------

  ghost predicate AllAbove(m: map<int, Update>, b: int) {
    forall k :: k in m ==> k > b
  }

  lemma {:induction false} LiveOfDrained(s: Slot)
    requires AllAbove(s.buffer, s.order.lastSeq)
    ensures Live(Drain(s)) == Drain(s)
    decreases |s.buffer|
  {
    var next := s.order.lastSeq + 1;
    if next in s.buffer && Accepts(s.order, s.buffer[next]) {
      LiveOfDrained(Slot(Advance(s.order, s.buffer[next]), s.buffer - {next}));
    } else {
      assert Live(Drain(s)).buffer == Drain(s).buffer;
    }
  }

  lemma DeliverNewToDrained(s: Slot, q: int, u: Update)
    requires s.order.lastSeq + 1 !in s.buffer
    requires q > s.order.lastSeq && q !in s.buffer
    ensures Deliver(s, q, u) == Drain(Slot(s.order, s.buffer[q := u]))
  {
    if q == s.order.lastSeq + 1 {
      assert s.buffer[q := u] - {q} == s.buffer;
    }
  }

  lemma DrainPastNext(s: Slot, q: int, u: Update)
    requires s.order.lastSeq + 1 in s.buffer && q != s.order.lastSeq + 1
    ensures var next := s.order.lastSeq + 1;
            Drain(Slot(s.order, s.buffer[q := u])) ==
            if Accepts(s.order, s.buffer[next])
            then Drain(Slot(Advance(s.order, s.buffer[next]), (s.buffer - {next})[q := u]))
            else Slot(s.order, (s.buffer - {next})[q := u])
  {
    var next := s.order.lastSeq + 1;
    assert s.buffer[q := u] - {next} == (s.buffer - {next})[q := u];
  }

  /** A first delivery after draining a set of updates gives what draining the larger set gives. */
  lemma {:induction false} DeliverNew(s: Slot, q: int, u: Update)
    requires AllAbove(s.buffer, s.order.lastSeq)
    requires q > s.order.lastSeq && q !in s.buffer
    ensures Deliver(Drain(s), q, u) == Drain(Slot(s.order, s.buffer[q := u]))
    decreases |s.buffer|
  {
    var o, m, next := s.order, s.buffer, s.order.lastSeq + 1;
    if next in m {
      DrainPastNext(s, q, u);
      if Accepts(o, m[next]) {
        DeliverNew(Slot(Advance(o, m[next]), m - {next}), q, u);
      }
    } else {
      DeliverNewToDrained(s, q, u);
    }
  }

  /** A repeated delivery after draining a set of updates that already holds it changes nothing that is live. */
  lemma {:induction false} DeliverAgain(s: Slot, q: int)
    requires AllAbove(s.buffer, s.order.lastSeq)
    requires q in s.buffer
    ensures Absorb(Drain(s), Delivery(q, s.buffer[q])) == Drain(s)
    decreases |s.buffer|
  {
    var o, m, next := s.order, s.buffer, s.order.lastSeq + 1;
    LiveOfDrained(s);
    if next in m && Accepts(o, m[next]) {
      if q != next {
        DeliverAgain(Slot(Advance(o, m[next]), m - {next}), q);
      }
    } else {
      assert Drain(s).buffer == m - {next};
      if q != next {
        assert (m - {next})[q := m[q]] == m - {next};
      }
    }
  }

  /** Deliveries with the same sequence number carry the same update. */
  ghost predicate Consistent(es: seq<Delivery>) {
    forall d, e :: d in es && e in es && d.seqNo == e.seqNo ==> d == e
  }

  /** Deliveries above `b` add to a set of updates. */
  function Including(m: map<int, Update>, b: int, e: Delivery): map<int, Update> {
    if e.seqNo <= b then m else m[e.seqNo := e.update]
  }

  /** The updates of a stream that lie above `b`, by sequence number. */
  function UpdatesAbove(es: seq<Delivery>, b: int): (m: map<int, Update>)
    ensures AllAbove(m, b)
  {
    if es == [] then map[]
    else Including(UpdatesAbove(es[..|es| - 1], b), b, es[|es| - 1])
  }

  lemma {:induction false} UpdatesAboveMembers(es: seq<Delivery>, b: int)
    requires Consistent(es)
    ensures forall e :: e in es && e.seqNo > b ==>
            e.seqNo in UpdatesAbove(es, b) && UpdatesAbove(es, b)[e.seqNo] == e.update
    ensures forall k :: k in UpdatesAbove(es, b) ==> Delivery(k, UpdatesAbove(es, b)[k]) in es
  {
    if es != [] {
      var init, last := es[..|es| - 1], es[|es| - 1];
      assert es == init + [last];
      assert Consistent(init);
      UpdatesAboveMembers(init, b);
    }
  }

  lemma {:induction false} UpdatesAboveIsSet(es: seq<Delivery>, fs: seq<Delivery>, b: int)
    requires Consistent(es)
    requires forall e :: e in es <==> e in fs
    ensures UpdatesAbove(es, b) == UpdatesAbove(fs, b)
  {
    assert Consistent(fs);
    UpdatesAboveMembers(es, b);
    UpdatesAboveMembers(fs, b);
    var m, m' := UpdatesAbove(es, b), UpdatesAbove(fs, b);
    forall k ensures k in m <==> k in m' {
      if k in m { assert Delivery(k, m[k]) in fs; }
      if k in m' { assert Delivery(k, m'[k]) in es; }
    }
    forall k | k in m ensures m[k] == m'[k] {
      assert Delivery(k, m[k]) in fs;
    }
  }

  function Canonical(o: Order, es: seq<Delivery>): Slot {
    Drain(Slot(o, UpdatesAbove(es, o.lastSeq)))
  }

  lemma {:induction false} AbsorbDrained(s: Slot, e: Delivery)
    requires AllAbove(s.buffer, s.order.lastSeq)
    requires e.seqNo in s.buffer ==> s.buffer[e.seqNo] == e.update
    ensures Absorb(Drain(s), e) == Drain(Slot(s.order, Including(s.buffer, s.order.lastSeq, e)))
  {
    if e.seqNo in s.buffer {
      DeliverAgain(s, e.seqNo);
      assert s.buffer[e.seqNo := e.update] == s.buffer;
    } else if e.seqNo > s.order.lastSeq {
      DeliverNew(s, e.seqNo, e.update);
      LiveOfDrained(Slot(s.order, s.buffer[e.seqNo := e.update]));
      if e.seqNo <= Drain(s).order.lastSeq {
      }
    }
  }

  /** Any stream, in any order and with any repetitions, leaves a fresh slot in the canonical live state. */
  lemma {:induction false} StreamIsCanonical(o: Order, es: seq<Delivery>)
    requires Consistent(es)
    ensures Live(DeliverAll(Slot(o, map[]), es)) == Canonical(o, es)
  {
    if es != [] {
      var init, e := es[..|es| - 1], es[|es| - 1];
      assert es == init + [e];
      assert Consistent(init);
      UpdatesAboveMembers(es, o.lastSeq);
      UpdatesAboveMembers(init, o.lastSeq);
      StreamIsCanonical(o, init);
      LiveDeliver(DeliverAll(Slot(o, map[]), init), e);
      AbsorbDrained(Slot(o, UpdatesAbove(init, o.lastSeq)), e);
    }
  }

  /** Order and repetition of delivery do not matter: only the set of delivered updates does. */
  lemma {:induction false} Confluence(o: Order, es: seq<Delivery>, fs: seq<Delivery>)
    requires Consistent(es)
    requires forall e :: e in es <==> e in fs
    ensures DeliverAll(Slot(o, map[]), es).order == DeliverAll(Slot(o, map[]), fs).order
    ensures Live(DeliverAll(Slot(o, map[]), es)) == Live(DeliverAll(Slot(o, map[]), fs))
  {
    StreamIsCanonical(o, es);
    StreamIsCanonical(o, fs);
    UpdatesAboveIsSet(es, fs, o.lastSeq);
  }

  ghost predicate DistinctSeqs(es: seq<Delivery>) {
    forall i, j :: 0 <= i < j < |es| ==> es[i].seqNo != es[j].seqNo
  }

  /** When each sequence number above the record's is delivered once, the whole buffer is canonical too. */
  lemma {:induction false} OnceEachIsCanonical(o: Order, es: seq<Delivery>)
    requires DistinctSeqs(es)
    requires forall e :: e in es ==> e.seqNo > o.lastSeq
    ensures Consistent(es)
    ensures DeliverAll(Slot(o, map[]), es) == Canonical(o, es)
  {
    if es != [] {
      var init, e := es[..|es| - 1], es[|es| - 1];
      assert es == init + [e];
      OnceEachIsCanonical(o, init);
      UpdatesAboveMembers(init, o.lastSeq);
      assert e.seqNo !in UpdatesAbove(init, o.lastSeq);
      DeliverNew(Slot(o, UpdatesAbove(init, o.lastSeq)), e.seqNo, e.update);
    }
  }

  lemma {:induction false} PermutationConfluence(o: Order, es: seq<Delivery>, fs: seq<Delivery>)
    requires DistinctSeqs(es)
    requires forall e :: e in es ==> e.seqNo > o.lastSeq
    requires multiset(es) == multiset(fs)
    ensures DeliverAll(Slot(o, map[]), es) == DeliverAll(Slot(o, map[]), fs)
  {
    SameMembers(es, fs);
    DistinctPermutes(es, fs);
    OnceEachIsCanonical(o, es);
    OnceEachIsCanonical(o, fs);
    UpdatesAboveIsSet(es, fs, o.lastSeq);
  }

  lemma {:induction false} DistinctPermutes(es: seq<Delivery>, fs: seq<Delivery>)
    requires DistinctSeqs(es)
    requires multiset(es) == multiset(fs)
    ensures DistinctSeqs(fs)
  {
    SameMembers(es, fs);
    forall i, j | 0 <= i < j < |fs| ensures fs[i].seqNo != fs[j].seqNo {
      if fs[i].seqNo == fs[j].seqNo {
        assert fs[i] in es && fs[j] in es;
        assert fs[i] == fs[j];
        TwicePresent(fs, i, j);
        OnceAtMost(es, fs[i]);
      }
    }
  }

  lemma {:induction false} TwicePresent(es: seq<Delivery>, i: nat, j: nat)
    requires i < j < |es| && es[i] == es[j]
    ensures multiset(es)[es[i]] >= 2
  {
    assert es == es[..j] + es[j..];
    assert es[i] in es[..j];
    assert es[j..][0] in es[j..];
  }

  lemma {:induction false} OnceAtMost(es: seq<Delivery>, e: Delivery)
    requires DistinctSeqs(es)
    ensures multiset(es)[e] <= 1
  {
    if es != [] {
      var init := es[..|es| - 1];
      assert es == init + [es[|es| - 1]];
      OnceAtMost(init, e);
      if e == es[|es| - 1] {
        assert e !in init;
      }
    }
  }

  // ----- The run that is applied ---------------------------------------------------------------

  /** The updates numbered just above the record's last, `n` of them, are all present and legal in turn. */
  predicate LegalRun(o: Order, m: map<int, Update>, n: nat)
    decreases n
  {
    n == 0 || (o.lastSeq + 1 in m && Accepts(o, m[o.lastSeq + 1]) && LegalRun(Advance(o, m[o.lastSeq + 1]), m, n - 1))
  }

  function AfterRun(o: Order, m: map<int, Update>, n: nat): (r: Order)
    requires LegalRun(o, m, n)
    ensures r.lastSeq == o.lastSeq + n
    decreases n
  {
    if n == 0 then o else AfterRun(Advance(o, m[o.lastSeq + 1]), m, n - 1)
  }

  function Beyond(m: map<int, Update>, k: int): map<int, Update> {
    map j | j in m && j > k :: m[j]
  }

  /** Draining applies the longest legal consecutive run and keeps what lies beyond the update that ends it. */
  lemma {:induction false} DrainIsLongestRun(o: Order, m: map<int, Update>) returns (n: nat)
    requires AllAbove(m, o.lastSeq)
    ensures LegalRun(o, m, n) && !LegalRun(o, m, n + 1)
    ensures Drain(Slot(o, m)) == Slot(AfterRun(o, m, n), Beyond(m, o.lastSeq + n + 1))
    decreases |m|
  {
    var next := o.lastSeq + 1;
    if next in m && Accepts(o, m[next]) {
      var o', rest := Advance(o, m[next]), m - {next};
      var n' := DrainIsLongestRun(o', rest);
      RunIgnoresBelow(o', m, rest, n');
      RunIgnoresBelow(o', m, rest, n' + 1);
      n := n' + 1;
      assert Beyond(rest, o'.lastSeq + n' + 1) == Beyond(m, o.lastSeq + n + 1);
    } else {
      n := 0;
      assert Drain(Slot(o, m)).buffer == Beyond(m, next);
    }
  }

  lemma {:induction false} RunIgnoresBelow(o: Order, m: map<int, Update>, rest: map<int, Update>, n: nat)
    requires rest == m - {o.lastSeq}
    ensures LegalRun(o, m, n) == LegalRun(o, rest, n)
    ensures LegalRun(o, m, n) ==> AfterRun(o, m, n) == AfterRun(o, rest, n)
    decreases n
  {
    var next := o.lastSeq + 1;
    if n > 0 && next in m && Accepts(o, m[next]) {
      RunBelowAgrees(Advance(o, m[next]), m, rest, n - 1);
    }
  }

  lemma {:induction false} RunBelowAgrees(o: Order, m: map<int, Update>, rest: map<int, Update>, n: nat)
    requires forall k :: k > o.lastSeq ==> (k in m <==> k in rest)
    requires forall k :: k > o.lastSeq && k in m ==> m[k] == rest[k]
    ensures LegalRun(o, m, n) == LegalRun(o, rest, n)
    ensures LegalRun(o, m, n) ==> AfterRun(o, m, n) == AfterRun(o, rest, n)
    decreases n
  {
    var next := o.lastSeq + 1;
    if n > 0 && next in m && Accepts(o, m[next]) {
      RunBelowAgrees(Advance(o, m[next]), m, rest, n - 1);
    }
  }

  /** Steps still possible before an order can move no further. */
  function StepsLeft(s: OrderState): nat {
    match s
    case NEW => 4
    case SENT => 3
    case ACK => 2
    case PARTIAL => 1
    case _ => 0
  }

  lemma {:induction false} RunIsShort(o: Order, m: map<int, Update>, n: nat)
    requires LegalRun(o, m, n)
    ensures n <= StepsLeft(o.state)
    decreases n
  {
    if n > 0 {
      RunIsShort(Advance(o, m[o.lastSeq + 1]), m, n - 1);
    }
  }

  // ----- The record after a run ----------------------------------------------------------------

  predicate NoneGiven<T>(given: int -> Option<T>, above: int, upTo: int) {
    forall k :: above < k <= upTo ==> given(k).None?
  }

  /** The value is the one given at `i`, and none is given after that. */
  ghost predicate GivenLast<T>(given: int -> Option<T>, above: int, upTo: int, i: int, value: Option<T>) {
    above < i <= upTo && value.Some? && given(i) == value && NoneGiven(given, i, upTo)
  }

  /** `result` is the last value given between the two numbers, or `kept` if none was given there. */
  ghost predicate LastGiven<T>(given: int -> Option<T>, above: int, upTo: int, kept: Option<T>, result: Option<T>) {
    (NoneGiven(given, above, upTo) && result == kept) || exists i :: GivenLast(given, above, upTo, i, result)
  }

  lemma {:induction false} LastGivenBefore<T>(
    given: int -> Option<T>, above: int, upTo: int, kept: Option<T>, next: Option<T>, result: Option<T>)
    requires above < upTo && next == if given(above + 1).Some? then given(above + 1) else kept
    requires LastGiven(given, above + 1, upTo, next, result)
    ensures LastGiven(given, above, upTo, kept, result)
  {
    if NoneGiven(given, above + 1, upTo) && result == next {
      if given(above + 1).Some? {
        assert GivenLast(given, above, upTo, above + 1, result);
      } else {
        assert NoneGiven(given, above, upTo);
      }
    } else {
      var i :| GivenLast(given, above + 1, upTo, i, result);
      assert GivenLast(given, above, upTo, i, result);
    }
  }

  /** Empty text gives nothing. */
  function Said(text: Option<string>): Option<string> {
    if text == Some("") then None else text
  }

  function FilledQtys(m: map<int, Update>): int -> Option<real> {
    k => if k in m then m[k].filledQty else None
  }

  function FillPrices(m: map<int, Update>): int -> Option<real> {
    k => if k in m then m[k].fillPrice else None
  }

  function BrokerIds(m: map<int, Update>): int -> Option<string> {
    k => if k in m then Said(m[k].brokerOrderId) else None
  }

  function Errors(m: map<int, Update>): int -> Option<string> {
    k => if k in m then Said(m[k].error) else None
  }

  /**
   The record `r` is what `o` becomes by the `n` updates after its last: it stands where the last of them
   took it, and each field holds what the last of them to give it gave.
   */
  ghost predicate RecordAfter(o: Order, m: map<int, Update>, n: nat, r: Order) {
    && r.symbol == o.symbol && r.strategyName == o.strategyName && r.submittedQty == o.submittedQty
    && r.lastSeq == o.lastSeq + n
    && (if n == 0 then r.state == o.state else o.lastSeq + n in m && r.state == m[o.lastSeq + n].target)
    && LastGiven(FilledQtys(m), o.lastSeq, o.lastSeq + n, Some(o.filledQty), Some(r.filledQty))
    && LastGiven(FillPrices(m), o.lastSeq, o.lastSeq + n, o.fillPrice, r.fillPrice)
    && LastGiven(BrokerIds(m), o.lastSeq, o.lastSeq + n, o.brokerOrderId, r.brokerOrderId)
    && LastGiven(Errors(m), o.lastSeq, o.lastSeq + n, o.lastError, r.lastError)
  }

  lemma {:induction false} RunLeavesRecord(o: Order, m: map<int, Update>, n: nat)
    requires LegalRun(o, m, n)
    ensures RecordAfter(o, m, n, AfterRun(o, m, n))
    decreases n
  {
    if n > 0 {
      var q := o.lastSeq;
      var o', r := Advance(o, m[q + 1]), AfterRun(o, m, n);
      RunLeavesRecord(o', m, n - 1);
      LastGivenBefore(FilledQtys(m), q, q + n, Some(o.filledQty), Some(o'.filledQty), Some(r.filledQty));
      LastGivenBefore(FillPrices(m), q, q + n, o.fillPrice, o'.fillPrice, r.fillPrice);
      LastGivenBefore(BrokerIds(m), q, q + n, o.brokerOrderId, o'.brokerOrderId, r.brokerOrderId);
      LastGivenBefore(Errors(m), q, q + n, o.lastError, o'.lastError, r.lastError);
    }
  }

  /**
   Update `j` is there and moves along an edge: from `state` if it is the first above `from`, otherwise from
   where the update before it led.
   */
  predicate AlongEdge(state: OrderState, m: map<int, Update>, from: int, j: int) {
    && j in m
    && (j == from + 1 || j - 1 in m)
    && (if j == from + 1 then state else m[j - 1].target, m[j].target) in EDGES
  }

  predicate EdgeRun(state: OrderState, m: map<int, Update>, from: int, n: nat) {
    forall j :: from < j <= from + n ==> AlongEdge(state, m, from, j)
  }

  lemma {:induction false} LegalRunIsEdgeRun(o: Order, m: map<int, Update>, n: nat)
    ensures LegalRun(o, m, n) <==> EdgeRun(o.state, m, o.lastSeq, n)
    decreases n
  {
    var first := o.lastSeq + 1;
    if n > 0 && first in m {
      AcceptsAlongEdges(o, m[first]);
      LegalRunIsEdgeRun(Advance(o, m[first]), m, n - 1);
      EdgeRunHead(o.state, m, o.lastSeq, n);
    } else if n > 0 {
      assert !AlongEdge(o.state, m, o.lastSeq, first);
    }
  }

  lemma {:induction false} EdgeRunHead(state: OrderState, m: map<int, Update>, from: int, n: nat)
    requires n > 0 && from + 1 in m
    ensures EdgeRun(state, m, from, n) <==>
            (state, m[from + 1].target) in EDGES && EdgeRun(m[from + 1].target, m, from + 1, n - 1)
  {
    var first := from + 1;
    var head := m[first].target;
    if EdgeRun(state, m, from, n) {
      assert AlongEdge(state, m, from, first);
      forall j | first < j <= from + n ensures AlongEdge(head, m, first, j) {
        assert AlongEdge(state, m, from, j);
      }
    }
    if (state, head) in EDGES && EdgeRun(head, m, first, n - 1) {
      forall j | from < j <= from + n ensures AlongEdge(state, m, from, j) {
        if j > first {
          assert AlongEdge(head, m, first, j);
        }
      }
    }
  }

  lemma DrainLeavesRun(o: Order, m: map<int, Update>, s: Slot) returns (n: nat)
    requires AllAbove(m, o.lastSeq) && Live(s) == Drain(Slot(o, m))
    ensures RunIsApplied(o, m, n, s)
  {
    n := DrainIsLongestRun(o, m);
    RunFacts(o, m, n);
    LiveWaits(s, AfterRun(o, m, n), m, o.lastSeq + n + 1);
  }

  lemma RunFacts(o: Order, m: map<int, Update>, n: nat)
    requires LegalRun(o, m, n) && !LegalRun(o, m, n + 1)
    ensures n <= StepsLeft(o.state)
    ensures EdgeRun(o.state, m, o.lastSeq, n) && !EdgeRun(o.state, m, o.lastSeq, n + 1)
    ensures RecordAfter(o, m, n, AfterRun(o, m, n))
  {
    RunIsShort(o, m, n);
    RunLeavesRecord(o, m, n);
    LegalRunIsEdgeRun(o, m, n);
    LegalRunIsEdgeRun(o, m, n + 1);
  }

  /**
   Of the updates `m` the longest run along edges, `n` of them and at most four, has made the record, and what
   lies beyond the update that ended the run waits.
   */
  ghost predicate RunIsApplied(o: Order, m: map<int, Update>, n: nat, s: Slot) {
    && n <= StepsLeft(o.state) <= 4
    && EdgeRun(o.state, m, o.lastSeq, n) && !EdgeRun(o.state, m, o.lastSeq, n + 1)
    && RecordAfter(o, m, n, s.order) && WaitBeyond(s, m, o.lastSeq + n + 1)
  }

  /** The stream's updates above the number, each under its own number. */
  ghost predicate AreUpdates(m: map<int, Update>, es: seq<Delivery>, b: int) {
    && (forall e :: e in es && e.seqNo > b ==> e.seqNo in m && m[e.seqNo] == e.update)
    && (forall k :: k in m ==> k > b && Delivery(k, m[k]) in es)
  }

  lemma {:induction false} UpdatesAboveAre(es: seq<Delivery>, b: int)
    requires Consistent(es)
    ensures AreUpdates(UpdatesAbove(es, b), es, b)
  {
    UpdatesAboveMembers(es, b);
  }

  /** Of the entries above the record's number, exactly those of `m` above `b` are in the buffer. */
  ghost predicate WaitBeyond(s: Slot, m: map<int, Update>, b: int) {
    forall k :: k > s.order.lastSeq ==>
      (k in s.buffer <==> k in m && k > b) && (k in s.buffer ==> s.buffer[k] == m[k])
  }

  lemma LiveWaits(s: Slot, o: Order, m: map<int, Update>, b: int)
    requires Live(s) == Slot(o, Beyond(m, b))
    ensures s.order == o && WaitBeyond(s, m, b)
  {
    forall k | k > s.order.lastSeq
      ensures (k in s.buffer <==> k in m && k > b) && (k in s.buffer ==> s.buffer[k] == m[k])
    {
      assert k in Live(s).buffer <==> k in s.buffer;
      assert k in Beyond(m, b) <==> k in m && k > b;
    }
  }

  /**
   The result of any stream on a fresh slot, from its updates `m` above the record's number alone: the longest
   run along edges has been applied, at most four updates long; each field of the record is that of the last
   applied update to give it; and everything beyond the update that ended the run waits in the buffer.
   */
  lemma {:induction false} StreamResult(o: Order, es: seq<Delivery>) returns (m: map<int, Update>, n: nat)
    requires Consistent(es)
    ensures AreUpdates(m, es, o.lastSeq) && RunIsApplied(o, m, n, DeliverAll(Slot(o, map[]), es))
  {
    m := UpdatesAbove(es, o.lastSeq);
    UpdatesAboveAre(es, o.lastSeq);
    StreamIsCanonical(o, es);
    n := DrainLeavesRun(o, m, DeliverAll(Slot(o, map[]), es));
  }

  // ----- Many orders ---------------------------------------------------------------------------

  type Book = map<string, Slot>

  function OpenOnly(book: Book): Book {
    map id | id in book && !IsTerminal(book[id].order.state) :: book[id]
  }

  /** Cleared of its finished orders, a book keeps exactly those that some move still leaves. */
  lemma {:induction false} OpenCanMove(book: Book, id: string)
    ensures id in OpenOnly(book) <==> id in book && exists to :: (book[id].order.state, to) in EDGES
    ensures id in OpenOnly(book) ==> OpenOnly(book)[id] == book[id]
    ensures forall k :: k in OpenOnly(book) ==> k in book
  {
    if id in book {
      TerminalIffNoEdge(book[id].order.state);
    }
  }
}
