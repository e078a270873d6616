/** Offline replay of an event stream through the order state machine. */
module Replay {
  import opened Common
  import opened OrderLifecycle

  datatype EventKind =
    | Noop
    | Register(symbol: string, strategyName: string, submittedQty: int)
    | Transition(target: string, brokerOrderId: Option<string>, filledQty: Option<real>,
                 fillPrice: Option<real>, error: Option<string>)

  datatype ReplayEvent = ReplayEvent(seqNo: int, orderId: string, kind: EventKind)

  /** The state with the given name, if there is one. */
  function ParseState(name: string): Option<OrderState> {
    match name
    case "NEW" => Some(NEW)
    case "SENT" => Some(SENT)
    case "ACK" => Some(ACK)
    case "PARTIAL" => Some(PARTIAL)
    case "FILLED" => Some(FILLED)
    case "CANCELED" => Some(CANCELED)
    case "REJECTED" => Some(REJECTED)
    case "EXPIRED" => Some(EXPIRED)
    case _ => None
  }

  /** The update a transition event asks for; none for other events and for an unknown target. */
  function UpdateOf(e: ReplayEvent): Option<Update> {
    match e.kind
    case Transition(target, brokerOrderId, filledQty, fillPrice, error) =>
      var state := ParseState(target);
      if state.None? then None else Some(Update(state.value, brokerOrderId, filledQty, fillPrice, error))
    case _ => None
  }

  /** The record a registration creates; it owns the event's sequence number. */
  function NewOrder(e: ReplayEvent): Order
    requires e.kind.Register?
  {
    Order(e.kind.symbol, e.kind.strategyName, NEW, None, e.kind.submittedQty, 0.0, None, None, e.seqNo)
  }

  function Lookup(book: Book, id: string): Option<Slot> {
    if id in book then Some(book[id]) else None
  }

  /** One event seen by the order it names. */
  function Step(slot: Option<Slot>, e: ReplayEvent): Option<Slot> {
    if e.kind.Register? then
      Some(Slot(NewOrder(e), if slot.Some? then slot.value.buffer else map[]))
    else if UpdateOf(e).Some? && slot.Some? then
      Some(Deliver(slot.value, e.seqNo, UpdateOf(e).value))
    else slot
  }

  function Replayed(book: Book, e: ReplayEvent): Book {
    var slot := Step(Lookup(book, e.orderId), e);
    if slot.Some? then book[e.orderId := slot.value] else book
  }

  function ReplayAll(book: Book, es: seq<ReplayEvent>): Book {
    if es == [] then book else Replayed(ReplayAll(book, es[..|es| - 1]), es[|es| - 1])
  }

  predicate IsSkipped(e: ReplayEvent) {
    e.kind.Noop? || (e.kind.Transition? && UpdateOf(e).None?)
  }

  function SkippedIn(es: seq<ReplayEvent>): nat {
    if es == [] then 0 else SkippedIn(es[..|es| - 1]) + if IsSkipped(es[|es| - 1]) then 1 else 0
  }

  // ----- The order of replay -------------------------------------------------------------------

  /** Text is compared character by character; a proper prefix comes first. */
  predicate TextLe(a: string, b: string) {
    a == [] || (b != [] && (a[0] < b[0] || (a[0] == b[0] && TextLe(a[1..], b[1..]))))
  }

  /** The texts part at some place, where the first has the smaller character. */
  predicate PartsBelow(a: string, b: string, i: nat) {
    i < |a| && i < |b| && a[..i] == b[..i] && a[i] < b[i]
  }

  /** A text comes before those it begins, and before those that have a larger character where the two part. */
  lemma {:induction false} TextLeMeans(a: string, b: string)
    ensures TextLe(a, b) <==> a <= b || exists i: nat :: PartsBelow(a, b, i)
  {
    if a != [] && b != [] {
      if a[0] == b[0] {
        TextLeMeans(a[1..], b[1..]);
        assert a == [a[0]] + a[1..] && b == [b[0]] + b[1..];
        assert a <= b <==> a[1..] <= b[1..];
        forall i: nat ensures PartsBelow(a, b, i + 1) <==> PartsBelow(a[1..], b[1..], i) {
        }
        PartsLater(a, b);
      } else {
        assert PartsBelow(a, b, 0) <==> a[0] < b[0];
        assert forall i: nat :: PartsBelow(a, b, i) ==> i == 0 || a[..i][0] == b[..i][0];
      }
    }
  }

  predicate KeyLe(d: ReplayEvent, e: ReplayEvent) {
    d.seqNo < e.seqNo || (d.seqNo == e.seqNo && TextLe(d.orderId, e.orderId))
  }

  lemma PartsLater(a: string, b: string)
    requires a != [] && b != [] && a[0] == b[0]
    requires forall i: nat :: PartsBelow(a, b, i + 1) <==> PartsBelow(a[1..], b[1..], i)
    ensures (exists i: nat :: PartsBelow(a, b, i)) <==> exists i: nat :: PartsBelow(a[1..], b[1..], i)
  {
    forall i: nat | PartsBelow(a, b, i) ensures i > 0 && PartsBelow(a[1..], b[1..], i - 1) {
      assert i - 1 + 1 == i;
    }
  }

  /** A stable insertion of the first event into the sorted rest. */
  function Insert(e: ReplayEvent, es: seq<ReplayEvent>): (r: seq<ReplayEvent>)
    ensures multiset(r) == multiset([e] + es)
  {
    if es == [] || KeyLe(e, es[0]) then [e] + es
    else
      var r := [es[0]] + Insert(e, es[1..]);
      assert [e] + es == [e] + ([es[0]] + es[1..]);
      r
  }

  /** The library sort by sequence number and then order id. */
  function Sorted(es: seq<ReplayEvent>): (r: seq<ReplayEvent>)
    ensures multiset(r) == multiset(es)
  {
    if es == [] then []
    else
      assert es == [es[0]] + es[1..];
      Insert(es[0], Sorted(es[1..]))
  }

  predicate SeqNosRise(es: seq<ReplayEvent>) {
    forall i, j :: 0 <= i < j < |es| ==> es[i].seqNo <= es[j].seqNo
  }

  predicate KeysRise(es: seq<ReplayEvent>) {
    forall i, j :: 0 <= i < j < |es| ==> KeyLe(es[i], es[j])
  }

  lemma {:induction false} TextIsOrdered(a: string, b: string, c: string)
    ensures TextLe(a, b) || TextLe(b, a)
    ensures TextLe(a, b) && TextLe(b, c) ==> TextLe(a, c)
  {
    if a != [] && b != [] {
      TextIsOrdered(a[1..], b[1..], if c == [] then [] else c[1..]);
    }
  }

  lemma KeysAreOrdered(d: ReplayEvent, e: ReplayEvent, f: ReplayEvent)
    ensures KeyLe(d, e) || KeyLe(e, d)
    ensures KeyLe(d, e) && KeyLe(e, f) ==> KeyLe(d, f)
  {
    TextIsOrdered(d.orderId, e.orderId, f.orderId);
  }

  lemma InInsert(e: ReplayEvent, es: seq<ReplayEvent>, d: ReplayEvent)
    requires d in Insert(e, es)
    ensures d == e || d in es
  {
    assert d in multiset(Insert(e, es));
    assert d in [e] + es;
  }

  lemma {:induction false} InsertRises(e: ReplayEvent, es: seq<ReplayEvent>)
    requires KeysRise(es)
    ensures KeysRise(Insert(e, es))
  {
    if es == [] || KeyLe(e, es[0]) {
      forall d | d in es ensures KeyLe(e, d) {
        KeysAreOrdered(e, es[0], d);
      }
    } else {
      InsertRises(e, es[1..]);
      var tail := Insert(e, es[1..]);
      forall d | d in tail ensures KeyLe(es[0], d) {
        InInsert(e, es[1..], d);
        KeysAreOrdered(es[0], e, d);
        if d in es[1..] {
        }
      }
    }
  }

  /** Replay goes by sequence number, and by order id among equal ones. */
  lemma {:induction false} SortedRises(es: seq<ReplayEvent>)
    ensures KeysRise(Sorted(es)) && SeqNosRise(Sorted(es))
  {
    if es != [] {
      SortedRises(es[1..]);
      InsertRises(es[0], Sorted(es[1..]));
    }
    assert forall i, j :: 0 <= i < j < |Sorted(es)| ==> KeyLe(Sorted(es)[i], Sorted(es)[j]);
  }

  // ----- Orders do not interfere ---------------------------------------------------------------

  function Own(es: seq<ReplayEvent>, id: string): seq<ReplayEvent> {
    if es == [] then []
    else Own(es[..|es| - 1], id) + if es[|es| - 1].orderId == id then [es[|es| - 1]] else []
  }

  function StepAll(slot: Option<Slot>, es: seq<ReplayEvent>): Option<Slot> {
    if es == [] then slot else Step(StepAll(slot, es[..|es| - 1]), es[|es| - 1])
  }

  /** What a replay leaves about one order depends only on that order's events. */
  lemma {:induction false} OrdersAreIndependent(book: Book, es: seq<ReplayEvent>, id: string)
    ensures Lookup(ReplayAll(book, es), id) == StepAll(Lookup(book, id), Own(es, id))
  {
    if es != [] {
      var init, e := es[..|es| - 1], es[|es| - 1];
      OrdersAreIndependent(book, init, id);
      if e.orderId == id {
        assert Own(es, id) == Own(init, id) + [e];
        assert Own(es, id)[..|Own(es, id)| - 1] == Own(init, id);
      } else {
        assert Own(es, id) == Own(init, id);
      }
    }
  }

  lemma SameBook(b: Book, c: Book)
    requires forall id :: Lookup(b, id) == Lookup(c, id)
    ensures b == c
  {
    forall id ensures id in b <==> id in c {
      assert Lookup(b, id) == Lookup(c, id);
    }
    forall id | id in b ensures b[id] == c[id] {
      assert Lookup(b, id) == Lookup(c, id);
    }
  }

  // ----- The arrangement does not matter -------------------------------------------------------

  ghost predicate DistinctKeys(es: seq<ReplayEvent>) {
    forall i, j :: 0 <= i < j < |es| ==> es[i].seqNo != es[j].seqNo || es[i].orderId != es[j].orderId
  }

  /** Each order's events come in the order of their sequence numbers. */
  ghost predicate OrderedPerOrder(es: seq<ReplayEvent>) {
    forall i, j :: 0 <= i < j < |es| && es[i].orderId == es[j].orderId ==> es[i].seqNo <= es[j].seqNo
  }

  ghost predicate StrictlyRising(es: seq<ReplayEvent>) {
    forall i, j :: 0 <= i < j < |es| ==> es[i].seqNo < es[j].seqNo
  }

  lemma {:induction false} OwnMembers(es: seq<ReplayEvent>, id: string)
    ensures forall e :: e in Own(es, id) <==> e in es && e.orderId == id
  {
    if es != [] {
      assert es == es[..|es| - 1] + [es[|es| - 1]];
      OwnMembers(es[..|es| - 1], id);
    }
  }

  lemma {:induction false} OwnStrictlyRises(es: seq<ReplayEvent>, id: string)
    requires DistinctKeys(es) && OrderedPerOrder(es)
    ensures StrictlyRising(Own(es, id))
  {
    if es != [] {
      var init, last := es[..|es| - 1], es[|es| - 1];
      OwnStrictlyRises(init, id);
      OwnMembers(init, id);
      if last.orderId == id {
        forall e | e in Own(init, id) ensures e.seqNo < last.seqNo {
          var i :| 0 <= i < |init| && init[i] == e;
          assert es[i] == e;
        }
      }
    }
  }

  lemma LastIsGreatest(es: seq<ReplayEvent>, e: ReplayEvent)
    requires StrictlyRising(es) && e in es
    ensures e.seqNo <= es[|es| - 1].seqNo && (e.seqNo == es[|es| - 1].seqNo ==> e == es[|es| - 1])
  {
    var i :| 0 <= i < |es| && es[i] == e;
  }

  lemma WithoutLast(es: seq<ReplayEvent>, e: ReplayEvent)
    requires StrictlyRising(es) && es != []
    ensures e in es[..|es| - 1] <==> e in es && e != es[|es| - 1]
  {
    assert es == es[..|es| - 1] + [es[|es| - 1]];
    if e in es[..|es| - 1] {
      var i :| 0 <= i < |es| - 1 && es[..|es| - 1][i] == e;
      assert es[i].seqNo < es[|es| - 1].seqNo;
    }
  }

  /** Two strictly rising arrangements of the same events are the same. */
  lemma {:induction false} RisingIsUnique(es: seq<ReplayEvent>, fs: seq<ReplayEvent>)
    requires StrictlyRising(es) && StrictlyRising(fs)
    requires forall e :: e in es <==> e in fs
    ensures es == fs
  {
    HeadIsMember(es);
    HeadIsMember(fs);
    if es != [] {
      var k, l := |es| - 1, |fs| - 1;
      LastIsGreatest(es, fs[l]);
      LastIsGreatest(fs, es[k]);
      forall e ensures e in es[..k] <==> e in fs[..l] {
        WithoutLast(es, e);
        WithoutLast(fs, e);
      }
      RisingIsUnique(es[..k], fs[..l]);
      assert es == es[..k] + [es[k]] && fs == fs[..l] + [fs[l]];
    }
  }

  /**
   Any two arrangements of the same events that keep each order's events in sequence replay to the
   same book: sorting by sequence number first or by order id first makes no difference.
   */
  lemma {:induction false} ArrangementIrrelevant(book: Book, es: seq<ReplayEvent>, fs: seq<ReplayEvent>)
    requires forall e :: e in es <==> e in fs
    requires DistinctKeys(es) && DistinctKeys(fs)
    requires OrderedPerOrder(es) && OrderedPerOrder(fs)
    ensures ReplayAll(book, es) == ReplayAll(book, fs)
  {
    forall id ensures Lookup(ReplayAll(book, es), id) == Lookup(ReplayAll(book, fs), id) {
      OrdersAreIndependent(book, es, id);
      OrdersAreIndependent(book, fs, id);
      OwnStrictlyRises(es, id);
      OwnStrictlyRises(fs, id);
      OwnMembers(es, id);
      OwnMembers(fs, id);
      RisingIsUnique(Own(es, id), Own(fs, id));
    }
    SameBook(ReplayAll(book, es), ReplayAll(book, fs));
  }

  lemma {:induction false} DistinctKeysPermute(es: seq<ReplayEvent>, fs: seq<ReplayEvent>)
    requires DistinctKeys(es)
    requires multiset(es) == multiset(fs)
    ensures DistinctKeys(fs)
  {
    SameMembers(es, fs);
    forall i, j | 0 <= i < j < |fs| && fs[i].seqNo == fs[j].seqNo && fs[i].orderId == fs[j].orderId
      ensures false
    {
      assert fs[i] in es && fs[j] in es;
      assert fs[i] == fs[j];
      assert fs == fs[..j] + fs[j..];
      assert fs[i] in fs[..j] && fs[j..][0] in fs[j..];
      assert multiset(fs)[fs[i]] >= 2;
      OnceOnly(es, fs[i]);
    }
  }

  lemma {:induction false} OnceOnly(es: seq<ReplayEvent>, e: ReplayEvent)
    requires DistinctKeys(es)
    ensures multiset(es)[e] <= 1
  {
    if es != [] {
      var init := es[..|es| - 1];
      assert es == init + [es[|es| - 1]];
      OnceOnly(init, e);
    }
  }

  /** A run is the same for every permutation of its input, and for every per-order arrangement of it. */
  lemma {:induction false} RunIsPermutationInvariant(book: Book, es: seq<ReplayEvent>, fs: seq<ReplayEvent>)
    requires DistinctKeys(es)
    requires multiset(es) == multiset(fs)
    ensures ReplayAll(book, Sorted(es)) == ReplayAll(book, Sorted(fs))
    ensures OrderedPerOrder(fs) ==> ReplayAll(book, Sorted(es)) == ReplayAll(book, fs)
  {
    DistinctKeysPermute(es, fs);
    DistinctKeysPermute(es, Sorted(es));
    DistinctKeysPermute(es, Sorted(fs));
    SameMembers(es, fs);
    SameMembers(Sorted(es), es);
    SameMembers(Sorted(fs), fs);
    SortedRises(es);
    SortedRises(fs);
    ArrangementIrrelevant(book, Sorted(es), Sorted(fs));
    if OrderedPerOrder(fs) {
      ArrangementIrrelevant(book, Sorted(es), fs);
    }
  }

  lemma {:induction false} SkippedAppend(es: seq<ReplayEvent>, fs: seq<ReplayEvent>)
    ensures SkippedIn(es + fs) == SkippedIn(es) + SkippedIn(fs)
  {
    if fs == [] {
      assert es + fs == es;
    } else {
      assert (es + fs)[..|es + fs| - 1] == es + fs[..|fs| - 1];
      SkippedAppend(es, fs[..|fs| - 1]);
    }
  }

  lemma SkippedMiddle(pre: seq<ReplayEvent>, e: ReplayEvent, post: seq<ReplayEvent>)
    ensures SkippedIn(pre + [e] + post) == SkippedIn(pre + post) + if IsSkipped(e) then 1 else 0
  {
    SkippedAppend(pre + [e], post);
    SkippedAppend(pre, post);
  }

  lemma Around(es: seq<ReplayEvent>, i: nat)
    requires i < |es|
    ensures es == es[..i] + [es[i]] + es[i + 1..]
  {
  }

  lemma MultisetWithout(es: seq<ReplayEvent>, i: nat)
    requires i < |es|
    ensures multiset(es[..i] + es[i + 1..]) == multiset(es) - multiset{es[i]}
  {
    Around(es, i);
  }

  /** How many events are skipped does not depend on their order either. */
  lemma {:induction false} SkippedIsPermutationInvariant(es: seq<ReplayEvent>, fs: seq<ReplayEvent>)
    requires multiset(es) == multiset(fs)
    ensures SkippedIn(es) == SkippedIn(fs)
  {
    assert |es| == |multiset(es)| == |fs|;
    if es != [] {
      var k := |es| - 1;
      assert es[k] in multiset(fs);
      var i :| 0 <= i < |fs| && fs[i] == es[k];
      MultisetWithout(es, k);
      MultisetWithout(fs, i);
      assert es[..k] + es[k + 1..] == es[..k];
      SkippedIsPermutationInvariant(es[..k], fs[..i] + fs[i + 1..]);
      Around(fs, i);
      SkippedMiddle(fs[..i], fs[i], fs[i + 1..]);
    }
  }

  // ----- Offline replay is live delivery -------------------------------------------------------

  /** The live deliveries that an order's transition events stand for. */
  function Deliveries(es: seq<ReplayEvent>): seq<Delivery> {
    if es == [] then []
    else
      var u := UpdateOf(es[|es| - 1]);
      Deliveries(es[..|es| - 1]) + if u.Some? then [Delivery(es[|es| - 1].seqNo, u.value)] else []
  }

  lemma {:induction false} DeliveriesMembers(es: seq<ReplayEvent>)
    ensures forall d :: d in Deliveries(es) <==>
                        exists e :: e in es && UpdateOf(e).Some? && d == Delivery(e.seqNo, UpdateOf(e).value)
  {
    if es != [] {
      assert es == es[..|es| - 1] + [es[|es| - 1]];
      DeliveriesMembers(es[..|es| - 1]);
    }
  }

  lemma {:induction false} DeliveriesDistinct(es: seq<ReplayEvent>)
    requires StrictlyRising(es)
    ensures DistinctSeqs(Deliveries(es))
  {
    if es != [] {
      var init, last := es[..|es| - 1], es[|es| - 1];
      DeliveriesDistinct(init);
      DeliveriesMembers(init);
      forall d | d in Deliveries(init) ensures d.seqNo < last.seqNo {
        var e :| e in init && UpdateOf(e).Some? && d == Delivery(e.seqNo, UpdateOf(e).value);
        var i :| 0 <= i < |init| && init[i] == e;
        assert es[i].seqNo < es[|es| - 1].seqNo;
      }
    }
  }

  /** `reg` is the one registration among the order's events, and the order's transitions come after it. */
  ghost predicate RegisteredFirst(es: seq<ReplayEvent>, reg: ReplayEvent) {
    && reg in es && reg.kind.Register?
    && forall e :: e in es && e.orderId == reg.orderId && e != reg ==>
                     !e.kind.Register? && (e.kind.Transition? ==> e.seqNo > reg.seqNo)
  }

  lemma {:induction false} StepAllAppend(slot: Option<Slot>, es: seq<ReplayEvent>, fs: seq<ReplayEvent>)
    ensures StepAll(slot, es + fs) == StepAll(StepAll(slot, es), fs)
    ensures Deliveries(es + fs) == Deliveries(es) + Deliveries(fs)
  {
    if fs == [] {
      assert es + fs == es;
    } else {
      assert (es + fs)[..|es + fs| - 1] == es + fs[..|fs| - 1];
      StepAllAppend(slot, es, fs[..|fs| - 1]);
    }
  }

  /** Nothing happens to an order that is not registered. */
  lemma {:induction false} UnknownStaysUnknown(es: seq<ReplayEvent>)
    requires forall e :: e in es ==> e.kind.Noop?
    ensures StepAll(None, es) == None && Deliveries(es) == []
  {
    if es != [] {
      assert es[|es| - 1] in es;
      UnknownStaysUnknown(es[..|es| - 1]);
    }
  }

  /** A registered order takes its updates as deliveries. */
  lemma {:induction false} KnownTakesDeliveries(s: Slot, es: seq<ReplayEvent>)
    requires forall e :: e in es ==> !e.kind.Register?
    ensures StepAll(Some(s), es) == Some(DeliverAll(s, Deliveries(es)))
  {
    if es != [] {
      var init, last := es[..|es| - 1], es[|es| - 1];
      assert last in es;
      KnownTakesDeliveries(s, init);
      if UpdateOf(last).Some? {
        assert Deliveries(es)[..|Deliveries(es)| - 1] == Deliveries(init);
      } else {
        assert Deliveries(es) == Deliveries(init);
      }
    }
  }

  /** Nothing is known before the registration; after it, updates are delivered. */
  lemma {:induction false} AroundRegistration(pre: seq<ReplayEvent>, reg: ReplayEvent, post: seq<ReplayEvent>)
    requires forall e :: e in pre ==> e.kind.Noop?
    requires reg.kind.Register?
    requires forall e :: e in post ==> !e.kind.Register?
    ensures var es := pre + [reg] + post;
            StepAll(None, es) == Some(DeliverAll(Slot(NewOrder(reg), map[]), Deliveries(es)))
  {
    UnknownStaysUnknown(pre);
    StepAllAppend(None, pre + [reg], post);
    StepAllAppend(None, pre, [reg]);
    KnownTakesDeliveries(Slot(NewOrder(reg), map[]), post);
    assert Deliveries(pre + [reg] + post) == [] + Deliveries(post) == Deliveries(post);
  }

  lemma BeforeRegistration(es: seq<ReplayEvent>, p: nat)
    requires StrictlyRising(es) && p < |es|
    requires forall e :: e in es && e != es[p] ==> !e.kind.Register? && (e.kind.Transition? ==> e.seqNo > es[p].seqNo)
    ensures forall e :: e in es[..p] ==> e.kind.Noop?
  {
    forall e | e in es[..p] ensures e.kind.Noop? {
      var i :| 0 <= i < p && es[..p][i] == e;
      assert es[i] == e && es[i].seqNo < es[p].seqNo;
    }
  }

  lemma AfterRegistration(es: seq<ReplayEvent>, p: nat)
    requires StrictlyRising(es) && p < |es|
    requires forall e :: e in es && e != es[p] ==> !e.kind.Register? && (e.kind.Transition? ==> e.seqNo > es[p].seqNo)
    ensures forall e :: e in es[p + 1..] ==> !e.kind.Register?
  {
    forall e | e in es[p + 1..] ensures !e.kind.Register? {
      var i :| 0 <= i < |es| - p - 1 && es[p + 1..][i] == e;
      assert es[p + 1 + i] == e && es[p].seqNo < es[p + 1 + i].seqNo;
    }
  }

  /** Events of one order in sequence, with one registration that comes before the order's transitions. */
  lemma {:induction false} StepAllIsDelivery(es: seq<ReplayEvent>, reg: ReplayEvent)
    requires StrictlyRising(es)
    requires reg in es && reg.kind.Register?
    requires forall e :: e in es && e != reg ==> !e.kind.Register? && (e.kind.Transition? ==> e.seqNo > reg.seqNo)
    ensures StepAll(None, es) == Some(DeliverAll(Slot(NewOrder(reg), map[]), Deliveries(es)))
  {
    var p :| 0 <= p < |es| && es[p] == reg;
    BeforeRegistration(es, p);
    AfterRegistration(es, p);
    assert es == es[..p] + [reg] + es[p + 1..];
    AroundRegistration(es[..p], reg, es[p + 1..]);
  }

  /**
   What a replay leaves about an order is what live deliveries of its updates leave, in whatever
   order those came: same record, same waiting updates.
   */
  lemma {:induction false} OfflineMatchesLive(es: seq<ReplayEvent>, reg: ReplayEvent, live: seq<Delivery>)
    requires DistinctKeys(es) && RegisteredFirst(es, reg)
    requires DistinctSeqs(live)
    requires forall d :: d in live <==> d in Deliveries(Own(es, reg.orderId))
    ensures Lookup(ReplayAll(map[], Sorted(es)), reg.orderId)
         == Some(DeliverAll(Slot(NewOrder(reg), map[]), live))
  {
    var id, sorted := reg.orderId, Sorted(es);
    var own := Own(sorted, id);
    DistinctKeysPermute(es, sorted);
    SameMembers(es, sorted);
    SortedRises(es);
    OwnStrictlyRises(sorted, id);
    OwnMembers(sorted, id);
    OwnMembers(es, id);
    OrdersAreIndependent(map[], sorted, id);
    StepAllIsDelivery(own, reg);
    DeliveriesDistinct(own);
    SameDeliveries(own, Own(es, id));
    OwnDeliveriesAbove(own, reg);
    SameOutcome(NewOrder(reg), Deliveries(own), live);
  }

  /**
   The same for a live stream that repeats itself: whatever is delivered again, and in whatever order,
   the record is the replay's, and so is every waiting update that can still matter.
   */
  lemma {:induction false} OfflineMatchesRepeatedLive(es: seq<ReplayEvent>, reg: ReplayEvent, live: seq<Delivery>)
    requires DistinctKeys(es) && RegisteredFirst(es, reg)
    requires forall d :: d in live <==> d in Deliveries(Own(es, reg.orderId))
    ensures var slot := DeliverAll(Slot(NewOrder(reg), map[]), live);
            var offline := Lookup(ReplayAll(map[], Sorted(es)), reg.orderId);
            offline.Some? && slot.order == offline.value.order && Live(slot) == Live(offline.value)
  {
    var once := Deliveries(Own(Sorted(es), reg.orderId));
    OwnDeliveries(es, reg.orderId);
    OfflineMatchesLive(es, reg, once);
    Confluence(NewOrder(reg), once, live);
  }

  lemma {:induction false} OwnDeliveries(es: seq<ReplayEvent>, id: string)
    requires DistinctKeys(es)
    ensures var once := Deliveries(Own(Sorted(es), id));
            && DistinctSeqs(once) && Consistent(once)
            && forall d :: d in once <==> d in Deliveries(Own(es, id))
  {
    var sorted := Sorted(es);
    DistinctKeysPermute(es, sorted);
    SameMembers(es, sorted);
    SortedRises(es);
    OwnStrictlyRises(sorted, id);
    OwnMembers(sorted, id);
    OwnMembers(es, id);
    DeliveriesDistinct(Own(sorted, id));
    SameDeliveries(Own(sorted, id), Own(es, id));
  }

  lemma {:induction false} SameDeliveries(es: seq<ReplayEvent>, fs: seq<ReplayEvent>)
    requires forall e :: e in es <==> e in fs
    ensures forall d :: d in Deliveries(es) <==> d in Deliveries(fs)
  {
    DeliveriesMembers(es);
    DeliveriesMembers(fs);
  }

  lemma {:induction false} OwnDeliveriesAbove(own: seq<ReplayEvent>, reg: ReplayEvent)
    requires reg.kind.Register?
    requires forall e :: e in own && e != reg ==> !e.kind.Register? && (e.kind.Transition? ==> e.seqNo > reg.seqNo)
    ensures forall d :: d in Deliveries(own) ==> d.seqNo > reg.seqNo
  {
    DeliveriesMembers(own);
  }

  /** The same updates, each delivered once, leave the same slot. */
  lemma {:induction false} SameOutcome(o: Order, es: seq<Delivery>, fs: seq<Delivery>)
    requires DistinctSeqs(es) && DistinctSeqs(fs)
    requires forall e :: e in es <==> e in fs
    requires forall e :: e in es ==> e.seqNo > o.lastSeq
    ensures DeliverAll(Slot(o, map[]), es) == DeliverAll(Slot(o, map[]), fs)
  {
    OnceEachIsCanonical(o, es);
    OnceEachIsCanonical(o, fs);
    UpdatesAboveIsSet(es, fs, o.lastSeq);
  }

  // ----- The ledger from the events alone ------------------------------------------------------

  /** The states by name, and the moves between them. */
  const NAMES: set<string> := {"NEW", "SENT", "ACK", "PARTIAL", "FILLED", "CANCELED", "REJECTED", "EXPIRED"}

  const NAMED_EDGES: set<(string, string)> := {
    ("NEW", "SENT"), ("NEW", "CANCELED"),
    ("SENT", "ACK"), ("SENT", "REJECTED"), ("SENT", "CANCELED"),
    ("ACK", "PARTIAL"), ("ACK", "FILLED"), ("ACK", "CANCELED"), ("ACK", "EXPIRED"),
    ("PARTIAL", "FILLED"), ("PARTIAL", "CANCELED"), ("PARTIAL", "EXPIRED")
  }

  function StateName(s: OrderState): string {
    match s
    case NEW => "NEW"
    case SENT => "SENT"
    case ACK => "ACK"
    case PARTIAL => "PARTIAL"
    case FILLED => "FILLED"
    case CANCELED => "CANCELED"
    case REJECTED => "REJECTED"
    case EXPIRED => "EXPIRED"
  }

  /** Exactly the names of states are read, each as its own state. */
  lemma {:induction false} ParsedIsNamed(name: string, s: OrderState)
    ensures ParseState(name) == Some(s) <==> name == StateName(s)
    ensures ParseState(name).Some? <==> name in NAMES
  {
    if name == StateName(s) {
      assert ParseState(name) == Some(s);
    }
  }

  /** The order's transition events whose target is a state. */
  predicate IsMove(e: ReplayEvent, id: string) {
    e.orderId == id && e.kind.Transition? && e.kind.target in NAMES
  }

  /** These events by their sequence numbers. */
  function Moves(es: seq<ReplayEvent>, id: string): map<int, ReplayEvent> {
    if es == [] then map[]
    else
      var e := es[|es| - 1];
      if IsMove(e, id) then Moves(es[..|es| - 1], id)[e.seqNo := e] else Moves(es[..|es| - 1], id)
  }

  lemma {:induction false} MovesAre(es: seq<ReplayEvent>, id: string)
    requires DistinctKeys(es)
    ensures forall e :: e in es && IsMove(e, id) ==> e.seqNo in Moves(es, id) && Moves(es, id)[e.seqNo] == e
    ensures forall k :: k in Moves(es, id) ==>
            Moves(es, id)[k] in es && IsMove(Moves(es, id)[k], id) && Moves(es, id)[k].seqNo == k
  {
    if es != [] {
      var init, last := es[..|es| - 1], es[|es| - 1];
      assert es == init + [last];
      MovesAre(init, id);
      forall e | e in init && e.orderId == last.orderId ensures e.seqNo != last.seqNo {
        var i :| 0 <= i < |init| && init[i] == e;
        assert es[i] == e;
      }
    }
  }

  function TargetOf(e: ReplayEvent): string {
    if e.kind.Transition? then e.kind.target else ""
  }

  /** The event numbered `j` is there and moves along a named edge, from NEW if it is the first above `from`. */
  predicate NamedStep(m: map<int, ReplayEvent>, from: int, j: int) {
    && j in m
    && (j == from + 1 || j - 1 in m)
    && (if j == from + 1 then "NEW" else TargetOf(m[j - 1]), TargetOf(m[j])) in NAMED_EDGES
  }

  predicate NamedRun(m: map<int, ReplayEvent>, from: int, n: nat) {
    forall j :: from < j <= from + n ==> NamedStep(m, from, j)
  }

  predicate LongestNamedRun(m: map<int, ReplayEvent>, from: int, n: nat) {
    NamedRun(m, from, n) && !NamedRun(m, from, n + 1)
  }

  /** The numbers of the moves beyond `b`. */
  function MovesBeyond(m: map<int, ReplayEvent>, b: int): set<int> {
    set k | k in m && k > b
  }

  function EventFilledQtys(m: map<int, ReplayEvent>): int -> Option<real> {
    k => if k in m && m[k].kind.Transition? then m[k].kind.filledQty else None
  }

  function EventFillPrices(m: map<int, ReplayEvent>): int -> Option<real> {
    k => if k in m && m[k].kind.Transition? then m[k].kind.fillPrice else None
  }

  function EventBrokerIds(m: map<int, ReplayEvent>): int -> Option<string> {
    k => if k in m && m[k].kind.Transition? then Said(m[k].kind.brokerOrderId) else None
  }

  function EventErrors(m: map<int, ReplayEvent>): int -> Option<string> {
    k => if k in m && m[k].kind.Transition? then Said(m[k].kind.error) else None
  }

  /**
   The record that a registration and the first `n` of the moves after it leave: where the last of them leads,
   and in each field what the last of them to give it gave.
   */
  ghost predicate RecordFrom(reg: ReplayEvent, m: map<int, ReplayEvent>, n: nat, o: Order) {
    var r := reg.seqNo;
    && reg.kind.Register?
    && o.symbol == reg.kind.symbol && o.strategyName == reg.kind.strategyName
    && o.submittedQty == reg.kind.submittedQty
    && o.lastSeq == r + n
    && (if n == 0 then o.state == NEW else r + n in m && StateName(o.state) == TargetOf(m[r + n]))
    && LastGiven(EventFilledQtys(m), r, r + n, Some(0.0), Some(o.filledQty))
    && LastGiven(EventFillPrices(m), r, r + n, None, o.fillPrice)
    && LastGiven(EventBrokerIds(m), r, r + n, None, o.brokerOrderId)
    && LastGiven(EventErrors(m), r, r + n, None, o.lastError)
  }

  /** The updates of the moves, by number. */
  ghost predicate SameMoves(m: map<int, ReplayEvent>, u: map<int, Update>) {
    forall k :: (k in m <==> k in u) && (k in m ==> UpdateOf(m[k]) == Some(u[k]))
  }

  lemma {:induction false} UpdateIsMove(e: ReplayEvent)
    ensures IsMove(e, e.orderId) <==> UpdateOf(e).Some?
    ensures UpdateOf(e).Some? ==>
            var u := UpdateOf(e).value;
            && StateName(u.target) == TargetOf(e)
            && e.kind.filledQty == u.filledQty && e.kind.fillPrice == u.fillPrice
            && e.kind.brokerOrderId == u.brokerOrderId && e.kind.error == u.error
  {
    if e.kind.Transition? {
      ParsedIsNamed(e.kind.target, NEW);
      if ParseState(e.kind.target).Some? {
        ParsedIsNamed(e.kind.target, ParseState(e.kind.target).value);
      }
    }
  }

  lemma {:induction false} NamedRunIsEdgeRun(m: map<int, ReplayEvent>, u: map<int, Update>, from: int, n: nat)
    requires SameMoves(m, u)
    ensures NamedRun(m, from, n) <==> EdgeRun(NEW, u, from, n)
  {
    forall j ensures NamedStep(m, from, j) <==> AlongEdge(NEW, u, from, j) {
    }
  }

  lemma LastGivenSame<T>(f: int -> Option<T>, g: int -> Option<T>, above: int, upTo: int, kept: Option<T>, r: Option<T>)
    requires LastGiven(f, above, upTo, kept, r) && forall k :: f(k) == g(k)
    ensures LastGiven(g, above, upTo, kept, r)
  {
    if NoneGiven(f, above, upTo) && r == kept {
      assert NoneGiven(g, above, upTo);
    } else {
      var i :| GivenLast(f, above, upTo, i, r);
      assert GivenLast(g, above, upTo, i, r);
    }
  }

  lemma {:induction false} RecordIsFrom(
    reg: ReplayEvent, m: map<int, ReplayEvent>, u: map<int, Update>, n: nat, o: Order)
    requires reg.kind.Register? && SameMoves(m, u) && RecordAfter(NewOrder(reg), u, n, o)
    ensures RecordFrom(reg, m, n, o)
  {
    var r := reg.seqNo;
    forall k
      ensures FilledQtys(u)(k) == EventFilledQtys(m)(k) && FillPrices(u)(k) == EventFillPrices(m)(k)
      ensures BrokerIds(u)(k) == EventBrokerIds(m)(k) && Errors(u)(k) == EventErrors(m)(k)
    {
      if k in m {
        UpdateIsMove(m[k]);
      }
    }
    LastGivenSame(FilledQtys(u), EventFilledQtys(m), r, r + n, Some(0.0), Some(o.filledQty));
    LastGivenSame(FillPrices(u), EventFillPrices(m), r, r + n, None, o.fillPrice);
    LastGivenSame(BrokerIds(u), EventBrokerIds(m), r, r + n, None, o.brokerOrderId);
    LastGivenSame(Errors(u), EventErrors(m), r, r + n, None, o.lastError);
    if n > 0 {
      UpdateIsMove(m[r + n]);
    }
  }

  /**
   What a replay leaves about an order that was not known before, from its events alone: the longest run of moves
   that follow the registration without a gap and lead from NEW along edges is applied, and of the other moves
   those beyond the one that ended the run wait.
   */
  lemma {:induction false} OrderFromEvents(book: Book, es: seq<ReplayEvent>, reg: ReplayEvent) returns (n: nat)
    requires DistinctKeys(es) && RegisteredFirst(es, reg) && reg.orderId !in book
    ensures var m := Moves(es, reg.orderId);
            var slot := Lookup(ReplayAll(book, Sorted(es)), reg.orderId);
            && LongestNamedRun(m, reg.seqNo, n)
            && slot.Some? && RecordFrom(reg, m, n, slot.value.order)
            && slot.value.buffer.Keys == MovesBeyond(m, reg.seqNo + n + 1)
  {
    var sorted := Sorted(es);
    var own := Own(sorted, reg.orderId);
    var o, u := NewOrder(reg), UpdatesAbove(Deliveries(own), reg.seqNo);
    DistinctKeysPermute(es, sorted);
    SameMembers(es, sorted);
    SortedRises(es);
    OwnStrictlyRises(sorted, reg.orderId);
    OwnMembers(sorted, reg.orderId);
    OrdersAreIndependent(book, sorted, reg.orderId);
    StepAllIsDelivery(own, reg);
    DeliveriesDistinct(own);
    OwnDeliveriesAbove(own, reg);
    OnceEachIsCanonical(o, Deliveries(own));
    MovesAreUpdates(es, own, reg);
    n := DrainIsNamedRun(Moves(es, reg.orderId), u, reg);
  }

  lemma {:induction false} DrainIsNamedRun(m: map<int, ReplayEvent>, u: map<int, Update>, reg: ReplayEvent)
    returns (n: nat)
    requires reg.kind.Register? && SameMoves(m, u) && AllAbove(u, reg.seqNo)
    ensures var slot := Drain(Slot(NewOrder(reg), u));
            && LongestNamedRun(m, reg.seqNo, n)
            && RecordFrom(reg, m, n, slot.order)
            && slot.buffer.Keys == MovesBeyond(m, reg.seqNo + n + 1)
  {
    var o := NewOrder(reg);
    n := DrainIsLongestRun(o, u);
    RunFacts(o, u, n);
    NamedRunIsEdgeRun(m, u, reg.seqNo, n);
    NamedRunIsEdgeRun(m, u, reg.seqNo, n + 1);
    RecordIsFrom(reg, m, u, n, AfterRun(o, u, n));
    assert Beyond(u, reg.seqNo + n + 1).Keys == MovesBeyond(m, reg.seqNo + n + 1);
  }

  lemma {:induction false} MovesAreUpdates(es: seq<ReplayEvent>, own: seq<ReplayEvent>, reg: ReplayEvent)
    requires DistinctKeys(es) && RegisteredFirst(es, reg)
    requires StrictlyRising(own) && forall e :: e in own <==> e in es && e.orderId == reg.orderId
    ensures SameMoves(Moves(es, reg.orderId), UpdatesAbove(Deliveries(own), reg.seqNo))
  {
    var m, u := Moves(es, reg.orderId), UpdatesAbove(Deliveries(own), reg.seqNo);
    MovesAre(es, reg.orderId);
    DeliveriesMembers(own);
    DeliveriesDistinct(own);
    UpdatesAboveMembers(Deliveries(own), reg.seqNo);
    forall k ensures (k in m <==> k in u) && (k in m ==> UpdateOf(m[k]) == Some(u[k])) {
      if k in m {
        UpdateIsMove(m[k]);
        assert Delivery(k, UpdateOf(m[k]).value) in Deliveries(own);
      }
      if k in u {
        var e :| e in own && UpdateOf(e).Some? && Delivery(k, u[k]) == Delivery(e.seqNo, UpdateOf(e).value);
        UpdateIsMove(e);
      }
    }
  }

  /** The orders known after a replay are those known before and those registered. */
  lemma {:induction false} KnownAfter(book: Book, es: seq<ReplayEvent>, id: string)
    ensures id in ReplayAll(book, es) <==> id in book || exists e :: e in es && e.orderId == id && e.kind.Register?
  {
    if es != [] {
      var init, e := es[..|es| - 1], es[|es| - 1];
      assert es == init + [e];
      KnownAfter(book, init, id);
    }
  }

  /** Skipped are the events that do nothing and the transitions to something that is not a state. */
  lemma {:induction false} SkippedMeans(e: ReplayEvent)
    ensures IsSkipped(e) <==> e.kind.Noop? || (e.kind.Transition? && e.kind.target !in NAMES)
  {
    UpdateIsMove(e);
  }

  // ----- The harness ---------------------------------------------------------------------------

  datatype OrderSummary = OrderSummary(orderId: string, finalState: OrderState, lastSeq: int, pendingCount: nat)

  /** The outcome of a run; the ledger itself stands for its digest. */
  datatype ReplayResult = ReplayResult(seed: int, processed: nat, skipped: nat, orders: map<string, OrderSummary>)

  function Summary(id: string, slot: Slot): OrderSummary {
    OrderSummary(id, slot.order.state, slot.order.lastSeq, |slot.buffer|)
  }

  function Ledger(book: Book): map<string, OrderSummary> {
    map id | id in book :: Summary(id, book[id])
  }

  /** The orders that the events register. */
  function Registered(es: seq<ReplayEvent>): set<string> {
    set e | e in es && e.kind.Register? :: e.orderId
  }

  /**
   The summary is that of an order registered by `reg` whose `n` following moves, as many as lead on from NEW
   along edges without a gap, have been applied; of its moves those beyond the next one are pending.
   */
  ghost predicate Shows(es: seq<ReplayEvent>, reg: ReplayEvent, n: nat, summary: OrderSummary) {
    var m, r := Moves(es, reg.orderId), reg.seqNo;
    && LongestNamedRun(m, r, n)
    && summary.orderId == reg.orderId
    && summary.lastSeq == r + n
    && (if n == 0 then summary.finalState == NEW
        else r + n in m && StateName(summary.finalState) == TargetOf(m[r + n]))
    && summary.pendingCount == |MovesBeyond(m, r + n + 1)|
  }

  ghost predicate LedgerShows(es: seq<ReplayEvent>, reg: ReplayEvent, orders: map<string, OrderSummary>) {
    reg.orderId in orders && exists n: nat :: Shows(es, reg, n, orders[reg.orderId])
  }

  lemma {:induction false} LedgerFromEvents(book: Book, es: seq<ReplayEvent>, reg: ReplayEvent)
    requires DistinctKeys(es) && RegisteredFirst(es, reg) && reg.orderId !in book
    ensures LedgerShows(es, reg, Ledger(ReplayAll(book, Sorted(es))))
  {
    var n := OrderFromEvents(book, es, reg);
    var slot := ReplayAll(book, Sorted(es))[reg.orderId];
    assert |slot.buffer| == |slot.buffer.Keys|;
    assert Shows(es, reg, n, Summary(reg.orderId, slot));
  }

  lemma {:induction false} LedgerKeys(book: Book, es: seq<ReplayEvent>)
    ensures Ledger(ReplayAll(book, Sorted(es))).Keys == book.Keys + Registered(es)
  {
    SameMembers(Sorted(es), es);
    forall id ensures id in Ledger(ReplayAll(book, Sorted(es))) <==> id in book || id in Registered(es) {
      KnownAfter(book, Sorted(es), id);
    }
  }

  /** All registrations of orders that are new to the book show in the ledger. */
  ghost predicate NewOrdersShow(
    known: set<string>, es: seq<ReplayEvent>, orders: map<string, OrderSummary>)
  {
    forall reg :: RegisteredFirst(es, reg) && reg.orderId !in known ==> LedgerShows(es, reg, orders)
  }

  lemma {:induction false} NewOrdersAreShown(book: Book, es: seq<ReplayEvent>)
    requires DistinctKeys(es)
    ensures NewOrdersShow(book.Keys, es, Ledger(ReplayAll(book, Sorted(es))))
  {
    forall reg | RegisteredFirst(es, reg) && reg.orderId !in book
      ensures LedgerShows(es, reg, Ledger(ReplayAll(book, Sorted(es))))
    {
      LedgerFromEvents(book, es, reg);
    }
  }

  datatype Mismatch = Mismatch(orderId: string, expected: OrderState, actual: Option<OrderState>)

  /** The state a result reports for an order. */
  function ReportedState(result: ReplayResult, id: string): Option<OrderState> {
    if id in result.orders then Some(result.orders[id].finalState) else None
  }

  function MismatchesIn(result: ReplayResult, expected: seq<(string, OrderState)>): seq<Mismatch> {
    if expected == [] then []
    else
      var (id, state) := expected[|expected| - 1];
      MismatchesIn(result, expected[..|expected| - 1]) +
      if ReportedState(result, id) == Some(state) then [] else [Mismatch(id, state, ReportedState(result, id))]
  }

  /** The failures are exactly the expected states that the result does not report, each with what it reports. */
  lemma {:induction false} MismatchesAreUnmet(result: ReplayResult, expected: seq<(string, OrderState)>, f: Mismatch)
    ensures f in MismatchesIn(result, expected) <==>
            && (f.orderId, f.expected) in expected
            && f.actual == ReportedState(result, f.orderId)
            && f.actual != Some(f.expected)
  {
    if expected != [] {
      var init, last := expected[..|expected| - 1], expected[|expected| - 1];
      assert expected == init + [last];
      MismatchesAreUnmet(result, init, f);
      var own := if ReportedState(result, last.0) == Some(last.1) then []
                 else [Mismatch(last.0, last.1, ReportedState(result, last.0))];
      assert MismatchesIn(result, expected) == MismatchesIn(result, init) + own;
      assert f in own <==> (f.orderId, f.expected) == last && f.actual == ReportedState(result, f.orderId)
                           && f.actual != Some(f.expected);
    }
  }
}

/** The harness that drives the events through an order state machine. */
module Harness {
  import opened Common
  import opened OrderLifecycle
  import opened OrderMachine
  import opened Replay

  class ReplayHarness {
    const seed: int
    const oms: OrderStateMachine?

    constructor (seed: int, oms: OrderStateMachine?)
      ensures this.seed == seed && this.oms == oms
    {
      this.seed, this.oms := seed, oms;
    }

    ghost function Footprint(): set<object>
      reads this, oms
    {
      if oms == null then {}
      else
        var records: set<object> := oms.orders.Values;
        records + {oms}
    }

    /** The book a run starts from: that of the injected machine, or an empty one. */
    ghost function Start(): Book
      reads this, oms, Footprint()
    {
      if oms == null then map[] else oms.Slots()
    }

    method Run(events: seq<ReplayEvent>) returns (result: ReplayResult)
      requires oms != null ==> oms.Valid()
      modifies Footprint()
      ensures oms != null ==> oms.Valid() && oms.Slots() == ReplayAll(old(Start()), Sorted(events))
      ensures result.seed == seed
      ensures result.orders == Ledger(ReplayAll(old(Start()), Sorted(events)))
      ensures result.orders.Keys == old(Start()).Keys + Registered(events)
      ensures DistinctKeys(events) ==> NewOrdersShow(old(Start()).Keys, events, result.orders)
      ensures result.skipped == SkippedIn(events)
      ensures result.processed + result.skipped == |events|
    {
      var machine: OrderStateMachine;
      if oms == null {
        machine := new OrderStateMachine();
      } else {
        machine := oms;
      }
      ghost var book := machine.Slots();
      machine.HoldsSlots(book);
      result := ReplayOn(machine, events, book);
      machine.HoldsSlots(ReplayAll(book, Sorted(events)));
      LedgerKeys(book, events);
      if DistinctKeys(events) {
        NewOrdersAreShown(book, events);
      }
    }

    /** Replay the events on a machine and report. */
    method ReplayOn(
      machine: OrderStateMachine, events: seq<ReplayEvent>, ghost book: Book) returns (result: ReplayResult)
      requires machine.Valid() && machine.Holds(book)
      modifies machine, machine.orders.Values
      ensures machine.Valid() && machine.Holds(ReplayAll(book, Sorted(events)))
      ensures result.seed == seed && result.orders == Ledger(ReplayAll(book, Sorted(events)))
      ensures result.skipped == SkippedIn(events) && result.processed + result.skipped == |events|
    {
      var sorted := Sorted(events);
      var processed, skipped := Drive(machine, sorted, book);
      SkippedIsPermutationInvariant(sorted, events);
      assert |sorted| == |multiset(sorted)| == |events|;
      var orders := Summaries(machine, ReplayAll(book, sorted));
      result := ReplayResult(seed, processed, skipped, orders);
    }

    /** A summary of every order the machine holds. */
    method Summaries(machine: OrderStateMachine, ghost book: Book) returns (orders: map<string, OrderSummary>)
      requires machine.Holds(book)
      ensures orders == Ledger(book)
    {
      orders := map id | id in machine.orders :: Summary(id, machine.SlotOf(id));
    }

    /** The replay loop over sorted events. */
    method Drive(machine: OrderStateMachine, sorted: seq<ReplayEvent>, ghost book: Book)
      returns (processed: nat, skipped: nat)
      requires machine.Valid() && machine.Holds(book)
      modifies machine, machine.orders.Values
      ensures machine.Valid() && machine.Holds(ReplayAll(book, sorted))
      ensures skipped == SkippedIn(sorted) && processed + skipped == |sorted|
    {
      processed, skipped := 0, 0;
      for i := 0 to |sorted|
        invariant machine.Valid()
        invariant forall r :: r in machine.orders.Values ==> r in old(machine.orders.Values) || fresh(r)
        invariant machine.Holds(ReplayAll(book, sorted[..i]))
        invariant skipped == SkippedIn(sorted[..i]) && processed + skipped == i
      {
        assert sorted[..i + 1][..i] == sorted[..i];
        var counted := Handle(machine, sorted[i], ReplayAll(book, sorted[..i]));
        if counted {
          processed := processed + 1;
        } else {
          skipped := skipped + 1;
        }
      }
      assert sorted[..|sorted|] == sorted;
    }

    /** One event of the replay; the result says whether it counts as processed. */
    method Handle(machine: OrderStateMachine, e: ReplayEvent, ghost book: Book) returns (processed: bool)
      requires machine.Valid() && machine.Holds(book)
      modifies machine, machine.orders.Values
      ensures machine.Valid()
      ensures machine.Holds(Replayed(book, e))
      ensures processed == !IsSkipped(e)
      ensures forall r :: r in machine.orders.Values ==> r in old(machine.orders.Values) || fresh(r)
    {
      match e.kind {
        case Noop =>
          processed := false;
        case Register(symbol, strategyName, submittedQty) =>
          HandleRegistration(machine, e, book);
          processed := true;
        case Transition(target, brokerOrderId, filledQty, fillPrice, error) =>
          var state := ParseState(target);
          if state.None? {
            return false;
          }
          HandleUpdate(machine, e, Update(state.value, brokerOrderId, filledQty, fillPrice, error), book);
          processed := true;
      }
    }

    method HandleRegistration(machine: OrderStateMachine, e: ReplayEvent, ghost book: Book)
      requires machine.Valid() && machine.Holds(book) && e.kind.Register?
      modifies machine
      ensures machine.Valid() && machine.Holds(Replayed(book, e))
      ensures forall r :: r in machine.orders.Values ==> r in old(machine.orders.Values) || fresh(r)
    {
      var record := new OrderRecord(e.orderId, e.kind.symbol, e.kind.strategyName, e.kind.submittedQty, e.seqNo);
      machine.Register(record);
    }

    method HandleUpdate(machine: OrderStateMachine, e: ReplayEvent, u: Update, ghost book: Book)
      requires machine.Valid() && machine.Holds(book) && UpdateOf(e) == Some(u)
      modifies machine, machine.orders.Values
      ensures machine.Valid() && machine.Holds(Replayed(book, e))
      ensures machine.orders == old(machine.orders)
    {
      var applied := machine.TransitionOrdered(e.orderId, e.seqNo, u);
    }

    /** The failures are the expectations that the result does not meet, in the order given. */
    method ValidateLedger(result: ReplayResult, expected: seq<(string, OrderState)>)
      returns (allPass: bool, failures: seq<Mismatch>)
      ensures failures == MismatchesIn(result, expected)
      ensures allPass <==> forall i :: 0 <= i < |expected| ==>
              ReportedState(result, expected[i].0) == Some(expected[i].1)
    {
      failures := [];
      for i := 0 to |expected|
        invariant failures == MismatchesIn(result, expected[..i])
        invariant failures == [] <==> forall k :: 0 <= k < i ==>
                  ReportedState(result, expected[k].0) == Some(expected[k].1)
      {
        assert expected[..i + 1][..i] == expected[..i];
        var actual := if expected[i].0 in result.orders then Some(result.orders[expected[i].0].finalState) else None;
        if actual != Some(expected[i].1) {
          failures := failures + [Mismatch(expected[i].0, expected[i].1, actual)];
        }
      }
      assert expected[..|expected|] == expected;
      allPass := failures == [];
    }
  }
}
