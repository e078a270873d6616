/** The in-memory order state machine, proved against the slots of `OrderLifecycle`. */
module OrderMachine {
  import opened Common
  import opened OrderLifecycle

  /** One order's record. Its id never changes, so distinct ids are distinct objects. */
  class OrderRecord {
    const orderId: string
    const symbol: string
    const strategyName: string
    const submittedQty: int
    var state: OrderState
    var brokerOrderId: Option<string>
    var filledQty: real
    var fillPrice: Option<real>
    var lastError: Option<string>
    var lastSeq: int

    constructor (orderId: string, symbol: string, strategyName: string, submittedQty: int, lastSeq: int)
      ensures this.orderId == orderId
      ensures Snapshot() == Order(symbol, strategyName, NEW, None, submittedQty, 0.0, None, None, lastSeq)
    {
      this.orderId, this.symbol, this.strategyName := orderId, symbol, strategyName;
      this.submittedQty, this.lastSeq := submittedQty, lastSeq;
      state, brokerOrderId, filledQty, fillPrice, lastError := NEW, None, 0.0, None, None;
    }

    function Snapshot(): Order
      reads this
    {
      Order(symbol, strategyName, state, brokerOrderId, submittedQty, filledQty, fillPrice, lastError, lastSeq)
    }

    predicate IsTerminal()
      reads this
    {
      OrderLifecycle.IsTerminal(state)
    }
  }

  class OrderStateMachine {
    var orders: map<string, OrderRecord>
    var pending: map<string, map<int, Update>>

    /** Records are filed under their own id, and only a known order has a buffer. */
    ghost predicate WellFiled()
      reads this
    {
      && (forall id :: id in orders ==> orders[id].orderId == id)
      && pending.Keys <= orders.Keys
    }

    /** Between calls a buffer exists only while it holds something. */
    ghost predicate Valid()
      reads this
    {
      WellFiled() && forall id :: id in pending ==> pending[id] != map[]
    }

    function Buffer(id: string): map<int, Update>
      reads this
    {
      if id in pending then pending[id] else map[]
    }

    /** The record that a call about `id` may touch. */
    ghost function RecordOf(id: string): set<OrderRecord>
      reads this
    {
      if id in orders then {orders[id]} else {}
    }

    function SlotOf(id: string): Slot
      requires id in orders
      reads this, orders[id]
    {
      Slot(orders[id].Snapshot(), Buffer(id))
    }

    /** What the machine holds, order by order. */
    function Slots(): Book
      reads this, orders.Values
    {
      map id | id in orders :: SlotOf(id)
    }

    /** The machine holds exactly this book. */
    ghost predicate Holds(book: Book)
      reads this, orders.Values
    {
      book.Keys == orders.Keys && forall id :: id in orders ==> SlotOf(id) == book[id]
    }

    lemma HoldsSlots(book: Book)
      ensures Holds(Slots())
      ensures Holds(book) ==> book == Slots()
    {
    }

    constructor ()
      ensures Valid() && orders == map[] && Slots() == map[]
    {
      orders, pending := map[], map[];
    }

    /** A record registered under a known id replaces the record and keeps that id's buffer. */
    method Register(record: OrderRecord)
      requires Valid()
      modifies this`orders
      ensures Valid()
      ensures orders == old(orders)[record.orderId := record] && pending == old(pending)
      ensures SlotOf(record.orderId) == Slot(record.Snapshot(), old(Buffer(record.orderId)))
      ensures forall k :: k in old(orders) && k != record.orderId ==> SlotOf(k) == old(SlotOf(k))
    {
      orders := orders[record.orderId := record];
    }

    method Transition(id: string, u: Update) returns (ok: bool)
      modifies RecordOf(id)
      ensures ok == (id in orders && (old(orders[id].state), u.target) in EDGES)
      ensures ok ==>
              var o, r := old(orders[id].Snapshot()), orders[id];
              && r.state == u.target
              && r.filledQty == (if u.filledQty == None then o.filledQty else u.filledQty.value)
              && r.fillPrice == (if u.fillPrice == None then o.fillPrice else u.fillPrice)
              && r.brokerOrderId == (if u.brokerOrderId in {None, Some("")} then o.brokerOrderId else u.brokerOrderId)
              && r.lastError == (if u.error in {None, Some("")} then o.lastError else u.error)
              && r.lastSeq == o.lastSeq
      ensures ok ==>
              Accepts(old(orders[id].Snapshot()), u) && orders[id].Snapshot() == Apply(old(orders[id].Snapshot()), u)
      ensures !ok && id in orders ==>
              !Accepts(old(orders[id].Snapshot()), u) && orders[id].Snapshot() == old(orders[id].Snapshot())
    {
      if id !in orders {
        return false;
      }
      var record := orders[id];
      AcceptsAlongEdges(record.Snapshot(), u);
      if record.IsTerminal() {
        return false;
      }
      if u.target !in Allowed(record.state) {
        return false;
      }
      record.state := u.target;
      if u.brokerOrderId.Some? && u.brokerOrderId.value != "" {
        record.brokerOrderId := u.brokerOrderId;
      }
      if u.filledQty.Some? {
        record.filledQty := u.filledQty.value;
      }
      if u.fillPrice.Some? {
        record.fillPrice := u.fillPrice;
      }
      if u.error.Some? && u.error.value != "" {
        record.lastError := u.error;
      }
      ok := true;
    }

    method TransitionOrdered(id: string, seqNo: int, u: Update) returns (ok: bool)
      requires Valid()
      modifies this`pending, RecordOf(id)
      ensures Valid() && orders == old(orders)
      ensures ok == (id in orders && seqNo == old(orders[id].lastSeq) + 1 && (old(orders[id].state), u.target) in EDGES)
      ensures id in orders && !ok ==>
              var s := old(SlotOf(id));
              && SlotOf(id).order == s.order
              && SlotOf(id).buffer == if seqNo in {s.order.lastSeq, s.order.lastSeq + 1} then s.buffer
                                      else s.buffer[seqNo := u]
      ensures id in orders ==> SlotOf(id) == Deliver(old(SlotOf(id)), seqNo, u)
      ensures forall k :: k in orders && k != id ==> SlotOf(k) == old(SlotOf(k))
    {
      if id !in orders {
        return false;
      }
      var record := orders[id];
      AcceptsAlongEdges(record.Snapshot(), u);
      ok := false;
      if seqNo <= record.lastSeq {
        if seqNo < record.lastSeq {
          Enqueue(id, seqNo, u);
        }
      } else if seqNo != record.lastSeq + 1 {
        Enqueue(id, seqNo, u);
      } else {
        ok := Transition(id, u);
        if ok {
          record.lastSeq := seqNo;
          FlushPending(id);
        }
      }
    }

    method Enqueue(id: string, seqNo: int, u: Update)
      requires Valid() && id in orders
      modifies this`pending
      ensures Valid()
      ensures Buffer(id) == old(Buffer(id))[seqNo := u]
      ensures forall k :: k != id ==> Buffer(k) == old(Buffer(k))
    {
      var buffer := if id in pending then pending[id] else map[];
      buffer := buffer[seqNo := u];
      assert seqNo in buffer;
      pending := pending[id := buffer];
    }

    method FlushPending(id: string)
      requires Valid() && id in orders
      modifies this`pending, orders[id]
      ensures Valid()
      ensures SlotOf(id) == Drain(old(SlotOf(id)))
      ensures forall k :: k != id ==> Buffer(k) == old(Buffer(k))
    {
      if id !in pending {
        return;
      }
      FlushAll(id);
      ghost var slot := SlotOf(id);
      if pending[id] == map[] {
        DropBuffer(id);
      }
      assert SlotOf(id) == slot;
    }

    /** Flush until an update is missing or rejected; an emptied buffer is left behind. */
    method FlushAll(id: string)
      requires id in orders && id in pending
      modifies this`pending, orders[id]
      ensures pending.Keys == old(pending.Keys)
      ensures forall k :: k in pending && k != id ==> pending[k] == old(pending[k])
      ensures SlotOf(id) == Drain(old(SlotOf(id)))
    {
      ghost var goal := Drain(SlotOf(id));
      var going := true;
      while going
        invariant pending.Keys == old(pending.Keys)
        invariant forall k :: k in pending && k != id ==> pending[k] == old(pending[k])
        invariant goal == if going then Drain(SlotOf(id)) else SlotOf(id)
        decreases |pending[id]|, going
      {
        going := FlushNext(id);
      }
    }

    method DropBuffer(id: string)
      modifies this`pending
      ensures pending.Keys == old(pending.Keys) - {id}
      ensures forall k :: k in pending ==> pending[k] == old(pending[k])
    {
      pending := pending - {id};
    }

    /** One turn of the flush: the next buffered update leaves the buffer, and the flush goes on only if it applied. */
    method FlushNext(id: string) returns (going: bool)
      requires id in orders && id in pending
      modifies this`pending, orders[id]
      ensures pending.Keys == old(pending.Keys)
      ensures forall k :: k in pending && k != id ==> pending[k] == old(pending[k])
      ensures going ==> Drain(SlotOf(id)) == Drain(old(SlotOf(id))) && |pending[id]| < |old(pending[id])|
      ensures !going ==> SlotOf(id) == Drain(old(SlotOf(id))) && |pending[id]| <= |old(pending[id])|
    {
      var record := orders[id];
      var next := record.lastSeq + 1;
      if next !in pending[id] {
        return false;
      }
      var u := pending[id][next];
      pending := pending[id := pending[id] - {next}];
      going := Transition(id, u);
      if going {
        record.lastSeq := next;
      }
    }

    /** Forget finished orders, buffers included. */
    method ClearTerminal() returns (removed: nat)
      requires Valid()
      modifies this
      ensures Valid()
      ensures Slots() == OpenOnly(old(Slots()))
      ensures removed == |old(set id | id in orders && orders[id].IsTerminal())|
    {
      var terminal := set id | id in orders && orders[id].IsTerminal();
      Remove(terminal);
      removed := |terminal|;
    }

    /** Delete records and buffers, one id after the other. */
    method Remove(ids: set<string>)
      modifies this
      ensures orders == old(orders) - ids
      ensures pending == old(pending) - ids
    {
      var left := ids;
      while left != {}
        invariant left <= ids
        invariant orders == old(orders) - (ids - left)
        invariant pending == old(pending) - (ids - left)
      {
        var id :| id in left;
        assert ids - (left - {id}) == (ids - left) + {id};
        orders := orders - {id};
        pending := pending - {id};
        left := left - {id};
      }
      assert ids - left == ids;
    }
  }
}
