/**
 * The payment pipeline: payment requests, orders and cancellations in one
 * database, tied together by transactional outbox rows and by broker messages
 * that may be delivered any number of times, to any number of handlers. Every
 * SQL transaction is one step and so is every other database or lock-store
 * read; processes may stop between any two steps.
 */
module Payments {
  import OW = OutboxWorkers

  type RequestId = nat
  type OrderId = nat
  type HandlerId = nat
  type SeatId = int

  datatype RequestStatus = Pending | Processing | FailedStatus | Succeeded
  datatype OrderStatus = Completed | Cancelling | Refunded

  datatype Request = Request(user: int, key: string, seats: set<SeatId>, status: RequestStatus)
  datatype Order = Order(request: RequestId, seats: set<SeatId>, status: OrderStatus)

  /** A consumer's place in handling one delivery, or a cancel request's in its handler. */
  datatype Pc =
    | Delivered(request: RequestId)      // about to ask whether an order exists
    | Validating(request: RequestId)     // about to look at the seat locks
    | Committing(request: RequestId)     // locks were there
    | Failing(request: RequestId)        // a lock was missing
    | Refunding(order: OrderId)          // a cancellation delivery
    | CancelRead(order: OrderId)         // cancel_order saw a completed order

  datatype State = State(
    requests: map<RequestId, Request>,
    orders: map<OrderId, Order>,
    booked: set<SeatId>,              // the seat rows with status Booked
    outbox: OW.State,
    handlers: map<HandlerId, Pc>)

  datatype Event =
    | RequestPayment(r: RequestId, user: int, key: string, seats: set<SeatId>, e: OW.EventId)
    | Outbox(ev: OW.Event)
    | Deliver(h: HandlerId, e: OW.EventId)
    | AskOrderExists(h: HandlerId, readable: bool)
    | LooksAtLocks(h: HandlerId, held: bool)
    | CommitCheckout(h: HandlerId, o: OrderId, e: OW.EventId)
    | FailRequest(h: HandlerId)
    | BeginCancel(h: HandlerId, o: OrderId)
    | CommitCancel(h: HandlerId, e: OW.EventId)
    | CommitRefund(h: HandlerId, e: OW.EventId)
    | Crash(h: HandlerId)

  function Init(now: int): State {
    State(map[], map[], {}, OW.Init(now), map[])
  }

  // ---------------------------------------------------------- database queries

  predicate KeyUsed(requests: map<RequestId, Request>, user: int, key: string) {
    exists r :: r in requests && requests[r].user == user && requests[r].key == key
  }

  predicate OrderExists(orders: map<OrderId, Order>, r: RequestId) {
    exists o :: o in orders && orders[o].request == r
  }

  function SetStatus(requests: map<RequestId, Request>, r: RequestId, status: RequestStatus): map<RequestId, Request> {
    if r in requests then requests[r := requests[r].(status := status)] else requests
  }

  /** UPDATE ... SET status = 'failed' WHERE status <> 'succeeded' */
  function FailUnlessSucceeded(requests: map<RequestId, Request>, r: RequestId): map<RequestId, Request> {
    if r in requests && requests[r].status != Succeeded then SetStatus(requests, r, FailedStatus) else requests
  }

  /** The status update that shares the transaction with an outbox mark. */
  function OutboxSideEffect(s: State, ev: OW.Event): map<RequestId, Request> {
    var workers, rows := s.outbox.workers, s.outbox.rows;
    if ev.MarkPublished? && ev.w in workers && workers[ev.w].Confirmed? && workers[ev.w].id in rows
       && rows[workers[ev.w].id].kind == OW.PaymentRequested then
      var r := rows[workers[ev.w].id].aggregate;
      if r in s.requests && s.requests[r].status == Pending then SetStatus(s.requests, r, Processing) else s.requests
    else if ev.MarkFailed? && ev.w in workers && workers[ev.w].Rejected? && workers[ev.w].id in rows
            && rows[workers[ev.w].id].kind == OW.PaymentRequested
            && OW.ShouldDeadLetter(workers[ev.w].attempts, OW.RouteFor(rows[workers[ev.w].id].kind).None?) then
      FailUnlessSucceeded(s.requests, rows[workers[ev.w].id].aggregate)
    else s.requests
  }

  function AddEvent(s: State, e: OW.EventId, kind: OW.Kind, aggregate: nat): OW.State {
    OW.Step(s.outbox, OW.Insert(e, kind, aggregate))
  }

  function Done(s: State, h: HandlerId): State {
    s.(handlers := s.handlers - {h})
  }

  function Step(s: State, ev: Event): State {
    match ev
    case RequestPayment(r, user, key, seats, e) =>
      // INSERT ... ON CONFLICT (user_id, idempotency_key) DO NOTHING, with its outbox row
      if r in s.requests || e in s.outbox.rows || KeyUsed(s.requests, user, key) then s
      else s.(requests := s.requests[r := Request(user, key, seats, Pending)], outbox := AddEvent(s, e, OW.PaymentRequested, r))
    case Outbox(oe) =>
      if oe.Insert? then s else s.(requests := OutboxSideEffect(s, oe), outbox := OW.Step(s.outbox, oe))
    case Deliver(h, e) =>
      if h in s.handlers || e !in s.outbox.accepted || e !in s.outbox.rows then s
      else
        var row := s.outbox.rows[e];
        if row.kind == OW.PaymentRequested then s.(handlers := s.handlers[h := Delivered(row.aggregate)])
        else if row.kind == OW.CancellationRequested then s.(handlers := s.handlers[h := Refunding(row.aggregate)])
        else s
    case AskOrderExists(h, readable) =>
      if h in s.handlers && s.handlers[h].Delivered? then
        var r := s.handlers[h].request;
        // an order is there already, or the message asks for no seats
        if (readable && OrderExists(s.orders, r)) || (r in s.requests && s.requests[r].seats == {}) then Done(s, h)
        else s.(handlers := s.handlers[h := Validating(r)])
      else s
    case LooksAtLocks(h, held) =>
      if h in s.handlers && s.handlers[h].Validating? then
        var r := s.handlers[h].request;
        s.(handlers := s.handlers[h := if held then Committing(r) else Failing(r)])
      else s
    case CommitCheckout(h, o, e) =>
      if h in s.handlers && s.handlers[h].Committing? && o !in s.orders && e !in s.outbox.rows then
        var r := s.handlers[h].request;
        // foreign key to the request, unique index on the order's request
        if r !in s.requests || OrderExists(s.orders, r) then Done(s, h)
        else
          Done(s, h).(booked := s.booked + s.requests[r].seats,
                      orders := s.orders[o := Order(r, s.requests[r].seats, Completed)],
                      requests := SetStatus(s.requests, r, Succeeded),
                      outbox := AddEvent(s, e, OW.OrderCompleted, o))
      else s
    case FailRequest(h) =>
      if h in s.handlers && s.handlers[h].Failing? then
        Done(s, h).(requests := FailUnlessSucceeded(s.requests, s.handlers[h].request))
      else s
    case BeginCancel(h, o) =>
      if h !in s.handlers && o in s.orders && s.orders[o].status == Completed
      then s.(handlers := s.handlers[h := CancelRead(o)]) else s
    case CommitCancel(h, e) =>
      if h in s.handlers && s.handlers[h].CancelRead? && e !in s.outbox.rows then
        var o := s.handlers[h].order;
        if o in s.orders && s.orders[o].status == Completed then
          Done(s, h).(orders := s.orders[o := s.orders[o].(status := Cancelling)],
                      outbox := AddEvent(s, e, OW.CancellationRequested, o))
        else Done(s, h)
      else s
    case CommitRefund(h, e) =>
      if h in s.handlers && s.handlers[h].Refunding? && e !in s.outbox.rows then
        var o := s.handlers[h].order;
        // the audit row refers to the order
        if o in s.orders then
          Done(s, h).(booked := s.booked - s.orders[o].seats,
                      orders := s.orders[o := s.orders[o].(status := Refunded)],
                      outbox := AddEvent(s, e, OW.TicketCancelled, o))
        else Done(s, h)
      else s
    case Crash(h) => Done(s, h)
  }

  function Exec(s: State, run: seq<Event>): State {
    if run == [] then s else Step(Exec(s, run[..|run| - 1]), run[|run| - 1])
  }

  // ------------------------------------------------------------ monotone status

  function RequestRank(status: RequestStatus): nat {
    match status
    case Pending => 0
    case Processing => 1
    case FailedStatus => 2
    case Succeeded => 3
  }

  function OrderRank(status: OrderStatus): nat {
    match status
    case Completed => 0
    case Cancelling => 1
    case Refunded => 2
  }

  // --------------------------------------------------------------- invariant

  predicate EventFor(s: State, e: OW.EventId, kind: OW.Kind, aggregate: nat) {
    e in s.outbox.rows && s.outbox.rows[e].kind == kind && s.outbox.rows[e].aggregate == aggregate
  }

  ghost predicate HasEvent(s: State, kind: OW.Kind, aggregate: nat) {
    exists e :: EventFor(s, e, kind, aggregate)
  }

  ghost predicate AtMostOneEvent(s: State, kind: OW.Kind, aggregate: nat) {
    forall e, f :: EventFor(s, e, kind, aggregate) && EventFor(s, f, kind, aggregate) ==> e == f
  }

  /** Exactly one event of this kind, or none, as the condition says. */
  ghost predicate OneEventIff(s: State, kind: OW.Kind, aggregate: nat, condition: bool) {
    (HasEvent(s, kind, aggregate) <==> condition) && AtMostOneEvent(s, kind, aggregate)
  }

  ghost predicate RequestEvents(s: State) {
    forall r: RequestId :: OneEventIff(s, OW.PaymentRequested, r, r in s.requests)
  }

  ghost predicate OrderEvents(s: State) {
    forall o: OrderId :: OneEventIff(s, OW.OrderCompleted, o, o in s.orders)
  }

  predicate LeftCompleted(s: State, o: OrderId) {
    o in s.orders && s.orders[o].status != Completed
  }

  ghost predicate CancelEvents(s: State) {
    forall o: OrderId :: OneEventIff(s, OW.CancellationRequested, o, LeftCompleted(s, o))
  }

  predicate OrdersHaveRequests(s: State) {
    forall o :: o in s.orders ==> s.orders[o].request in s.requests
  }

  predicate SameRequest(s: State, o: OrderId, p: OrderId) {
    o in s.orders && p in s.orders && s.orders[o].request == s.orders[p].request
  }

  ghost predicate OneOrderEach(s: State) {
    forall o, p :: SameRequest(s, o, p) ==> o == p
  }

  predicate SucceededHaveOrders(s: State) {
    forall r :: r in s.requests ==> (s.requests[r].status == Succeeded <==> OrderExists(s.orders, r))
  }

  predicate SameKey(s: State, q: RequestId, r: RequestId) {
    && q in s.requests && r in s.requests
    && s.requests[q].user == s.requests[r].user && s.requests[q].key == s.requests[r].key
  }

  ghost predicate KeysUnique(s: State) {
    forall q, r :: SameKey(s, q, r) ==> q == r
  }

  /** The broker has taken an event of this kind for this row. */
  ghost predicate Accepted(s: State, kind: OW.Kind, aggregate: nat) {
    exists e :: EventFor(s, e, kind, aggregate) && e in s.outbox.accepted
  }

  ghost predicate PcAccepted(s: State, pc: Pc) {
    match pc
    case Refunding(o) => Accepted(s, OW.CancellationRequested, o)
    case CancelRead(_) => true
    case _ => Accepted(s, OW.PaymentRequested, pc.request)
  }

  ghost predicate DeliveriesAccepted(s: State) {
    forall h :: h in s.handlers ==> PcAccepted(s, s.handlers[h])
  }

  /** No order, and no refund, without an accepted message that asked for it. */
  ghost predicate OrderAccepted(s: State, o: OrderId)
    requires o in s.orders
  {
    && Accepted(s, OW.PaymentRequested, s.orders[o].request)
    && (s.orders[o].status == Refunded ==> Accepted(s, OW.CancellationRequested, o))
  }

  ghost predicate OrdersAccepted(s: State) {
    forall o :: o in s.orders ==> OrderAccepted(s, o)
  }

  /** A request has left `pending` only if the broker took its message, and has if the event is published. */
  ghost predicate StatusKnown(s: State, r: RequestId)
    requires r in s.requests
  {
    && (s.requests[r].status != Pending ==> Accepted(s, OW.PaymentRequested, r))
    && (s.requests[r].status == Pending ==>
          forall e :: EventFor(s, e, OW.PaymentRequested, r) ==> !s.outbox.rows[e].published)
  }

  ghost predicate StatusesKnown(s: State) {
    forall r :: r in s.requests ==> StatusKnown(s, r)
  }

  /** The order still claims the seat. */
  predicate Claims(s: State, o: OrderId, seat: SeatId) {
    o in s.orders && s.orders[o].status != Refunded && seat in s.orders[o].seats
  }

  predicate Covered(s: State, seat: SeatId) {
    exists o :: o in s.orders && Claims(s, o, seat)
  }

  ghost predicate BookedCovered(s: State) {
    forall seat :: seat in s.booked ==> Covered(s, seat)
  }

  ghost predicate SeatsExact(s: State) {
    forall seat :: seat in s.booked <==> Covered(s, seat)
  }

  ghost predicate Inv(s: State) {
    && RequestEvents(s) && OrderEvents(s) && CancelEvents(s)
    && OrdersHaveRequests(s) && OneOrderEach(s) && SucceededHaveOrders(s)
    && KeysUnique(s)
    && DeliveriesAccepted(s) && OrdersAccepted(s)
    && OW.Inv(s.outbox) && StatusesKnown(s)
    && BookedCovered(s)
  }

  // -------------------------------------------------- what a step does to events

  /** The event row a step adds, if any. */
  datatype Added = Nothing | Added(e: OW.EventId, kind: OW.Kind, aggregate: nat)

  function AddedBy(s: State, ev: Event): Added {
    match ev
    case RequestPayment(r, user, key, seats, e) =>
      if r in s.requests || e in s.outbox.rows || KeyUsed(s.requests, user, key) then Nothing
      else Added(e, OW.PaymentRequested, r)
    case CommitCheckout(h, o, e) =>
      if h in s.handlers && s.handlers[h].Committing? && o !in s.orders && e !in s.outbox.rows
         && s.handlers[h].request in s.requests && !OrderExists(s.orders, s.handlers[h].request)
      then Added(e, OW.OrderCompleted, o) else Nothing
    case CommitCancel(h, e) =>
      if h in s.handlers && s.handlers[h].CancelRead? && e !in s.outbox.rows && s.handlers[h].order in s.orders
         && s.orders[s.handlers[h].order].status == Completed
      then Added(e, OW.CancellationRequested, s.handlers[h].order) else Nothing
    case CommitRefund(h, e) =>
      if h in s.handlers && s.handlers[h].Refunding? && e !in s.outbox.rows && s.handlers[h].order in s.orders
      then Added(e, OW.TicketCancelled, s.handlers[h].order) else Nothing
    case _ => Nothing
  }

  lemma OutboxKeepsEvents(o: OW.State, ev: OW.Event)
    requires !ev.Insert?
    ensures OW.Step(o, ev).rows.Keys == o.rows.Keys
    ensures forall e :: e in o.rows ==> OW.Step(o, ev).rows[e].kind == o.rows[e].kind
                                        && OW.Step(o, ev).rows[e].aggregate == o.rows[e].aggregate
  {
  }

  lemma EventsAfter(s: State, ev: Event, e: OW.EventId, kind: OW.Kind, aggregate: nat)
    ensures EventFor(Step(s, ev), e, kind, aggregate) <==>
            EventFor(s, e, kind, aggregate) || AddedBy(s, ev) == Added(e, kind, aggregate)
  {
    if ev.Outbox? && !ev.ev.Insert? {
      OutboxKeepsEvents(s.outbox, ev.ev);
    }
  }

  /** A kind and aggregate keep their one event, or gain it as the condition turns true. */
  lemma OneEventStep(s: State, ev: Event, kind: OW.Kind, aggregate: nat, was: bool, holds: bool)
    requires OneEventIff(s, kind, aggregate, was)
    requires var a := AddedBy(s, ev);
             if a.Added? && a.kind == kind && a.aggregate == aggregate then !was && holds else was == holds
    ensures OneEventIff(Step(s, ev), kind, aggregate, holds)
  {
    forall e
      ensures EventFor(Step(s, ev), e, kind, aggregate) <==>
              EventFor(s, e, kind, aggregate) || AddedBy(s, ev) == Added(e, kind, aggregate)
    {
      EventsAfter(s, ev, e, kind, aggregate);
    }
    var a := AddedBy(s, ev);
    if a.Added? && a.kind == kind && a.aggregate == aggregate {
      assert EventFor(Step(s, ev), a.e, kind, aggregate);
    } else if was {
      var e :| EventFor(s, e, kind, aggregate);
      assert EventFor(Step(s, ev), e, kind, aggregate);
    }
  }

  lemma RequestKeysAfter(s: State, ev: Event)
    ensures Step(s, ev).requests.Keys == s.requests.Keys
            + if AddedBy(s, ev).Added? && AddedBy(s, ev).kind == OW.PaymentRequested then {AddedBy(s, ev).aggregate} else {}
    ensures forall r :: r in s.requests ==>
              Step(s, ev).requests[r].user == s.requests[r].user && Step(s, ev).requests[r].key == s.requests[r].key
  {
  }

  lemma OrdersAfter(s: State, ev: Event)
    ensures Step(s, ev).orders.Keys == s.orders.Keys
            + if AddedBy(s, ev).Added? && AddedBy(s, ev).kind == OW.OrderCompleted then {AddedBy(s, ev).aggregate} else {}
    ensures forall o :: o in s.orders ==> Step(s, ev).orders[o].request == s.orders[o].request
  {
  }

  lemma EventsStep(s: State, ev: Event)
    requires RequestEvents(s) && OrderEvents(s)
    ensures RequestEvents(Step(s, ev)) && OrderEvents(Step(s, ev))
  {
    var s' := Step(s, ev);
    RequestKeysAfter(s, ev);
    OrdersAfter(s, ev);
    forall r: RequestId
      ensures OneEventIff(s', OW.PaymentRequested, r, r in s'.requests)
    {
      OneEventStep(s, ev, OW.PaymentRequested, r, r in s.requests, r in s'.requests);
    }
    forall o: OrderId
      ensures OneEventIff(s', OW.OrderCompleted, o, o in s'.orders)
    {
      OneEventStep(s, ev, OW.OrderCompleted, o, o in s.orders, o in s'.orders);
    }
  }

  lemma LeftAfter(s: State, ev: Event, o: OrderId)
    requires CancelEvents(s) && DeliveriesAccepted(s)
    ensures LeftCompleted(Step(s, ev), o) <==>
            LeftCompleted(s, o) || (AddedBy(s, ev).Added? && AddedBy(s, ev).kind == OW.CancellationRequested && AddedBy(s, ev).aggregate == o)
  {
    OrdersChange(s, ev);
    if ev.CommitRefund? && ev.h in s.handlers && s.handlers[ev.h].Refunding? {
      RefundedHadLeft(s, ev.h);
    }
  }

  lemma RefundedHadLeft(s: State, h: HandlerId)
    requires CancelEvents(s) && DeliveriesAccepted(s) && h in s.handlers && s.handlers[h].Refunding?
    ensures LeftCompleted(s, s.handlers[h].order)
  {
    var o := s.handlers[h].order;
    assert PcAccepted(s, s.handlers[h]);
    assert OneEventIff(s, OW.CancellationRequested, o, LeftCompleted(s, o));
  }

  lemma CancelEventsStep(s: State, ev: Event)
    requires CancelEvents(s) && DeliveriesAccepted(s)
    ensures CancelEvents(Step(s, ev))
  {
    var s' := Step(s, ev);
    forall o: OrderId
      ensures OneEventIff(s', OW.CancellationRequested, o, LeftCompleted(s', o))
    {
      LeftAfter(s, ev, o);
      OneEventStep(s, ev, OW.CancellationRequested, o, LeftCompleted(s, o), LeftCompleted(s', o));
    }
  }

  lemma AcceptedKept(s: State, ev: Event, kind: OW.Kind, aggregate: nat)
    requires Accepted(s, kind, aggregate)
    ensures Accepted(Step(s, ev), kind, aggregate)
  {
    var e :| EventFor(s, e, kind, aggregate) && e in s.outbox.accepted;
    EventsAfter(s, ev, e, kind, aggregate);
    AcceptedGrows(s, ev);
    assert EventFor(Step(s, ev), e, kind, aggregate);
  }

  lemma AcceptedGrows(s: State, ev: Event)
    ensures s.outbox.accepted <= Step(s, ev).outbox.accepted
  {
  }

  /** A handler keeps its request or order, or starts from an accepted message. */
  lemma HandlerAfter(s: State, ev: Event, h: HandlerId)
    requires h in Step(s, ev).handlers
    ensures var pc := Step(s, ev).handlers[h];
            || pc.CancelRead?
            || (h in s.handlers && pc == s.handlers[h])
            || (h in s.handlers && !pc.Refunding? && !s.handlers[h].Refunding? && !s.handlers[h].CancelRead? && pc.request == s.handlers[h].request)
            || (ev.Deliver? && ev.e in s.outbox.accepted && pc.Delivered? && EventFor(s, ev.e, OW.PaymentRequested, pc.request))
            || (ev.Deliver? && ev.e in s.outbox.accepted && pc.Refunding? && EventFor(s, ev.e, OW.CancellationRequested, pc.order))
  {
  }

  lemma DeliveriesStep(s: State, ev: Event)
    requires DeliveriesAccepted(s)
    ensures DeliveriesAccepted(Step(s, ev))
  {
    var s' := Step(s, ev);
    forall h | h in s'.handlers
      ensures PcAccepted(s', s'.handlers[h])
    {
      HandlerAfter(s, ev, h);
      var pc := s'.handlers[h];
      if !pc.CancelRead? {
        var kind := if pc.Refunding? then OW.CancellationRequested else OW.PaymentRequested;
        var aggregate := if pc.Refunding? then pc.order else pc.request;
        assert h in s.handlers ==> PcAccepted(s, s.handlers[h]);
        assert Accepted(s, kind, aggregate);
        AcceptedKept(s, ev, kind, aggregate);
      }
    }
  }

  lemma KeysStep(s: State, ev: Event)
    requires KeysUnique(s)
    ensures KeysUnique(Step(s, ev))
  {
    RequestKeysAfter(s, ev);
    var s' := Step(s, ev);
    forall q, r | SameKey(s', q, r)
      ensures q == r
    {
      if q in s.requests && r in s.requests {
        assert SameKey(s, q, r);
      } else if r in s.requests {
        NewKeyUnused(s, ev, q, r);
      } else if q in s.requests {
        NewKeyUnused(s, ev, r, q);
      }
    }
  }

  /** A new request's key is not one of the user's old ones. */
  lemma NewKeyUnused(s: State, ev: Event, q: RequestId, p: RequestId)
    requires q !in s.requests && q in Step(s, ev).requests && p in s.requests
    ensures !SameKey(Step(s, ev), q, p)
  {
    RequestKeysAfter(s, ev);
    var user, key := s.requests[p].user, s.requests[p].key;
    assert KeyUsed(s.requests, user, key);
  }

  lemma StatusAfter(s: State, ev: Event, r: RequestId)
    requires r in s.requests
    ensures r in Step(s, ev).requests
    ensures RequestRank(s.requests[r].status) <= RequestRank(Step(s, ev).requests[r].status)
    ensures Step(s, ev).requests[r].status == Succeeded <==>
            s.requests[r].status == Succeeded
            || (AddedBy(s, ev).Added? && AddedBy(s, ev).kind == OW.OrderCompleted && s.handlers[ev.h].request == r)
  {
  }

  /** What a step does to the order table and the seats. */
  lemma OrdersChange(s: State, ev: Event)
    ensures var a, t := AddedBy(s, ev), Step(s, ev);
            if a.Nothing? || a.kind == OW.PaymentRequested then t.orders == s.orders && t.booked == s.booked
            else if a.kind == OW.OrderCompleted then
              && a.aggregate !in s.orders && s.handlers[ev.h].Committing? && s.handlers[ev.h].request in s.requests
              && !OrderExists(s.orders, s.handlers[ev.h].request)
              && t.orders == s.orders[a.aggregate := Order(s.handlers[ev.h].request, s.requests[s.handlers[ev.h].request].seats, Completed)]
              && t.booked == s.booked + s.requests[s.handlers[ev.h].request].seats
            else
              && a.aggregate in s.orders
              && var order := s.orders[a.aggregate];
              if a.kind == OW.CancellationRequested
              then order.status == Completed && t.orders == s.orders[a.aggregate := order.(status := Cancelling)] && t.booked == s.booked
              else a.kind == OW.TicketCancelled && ev.CommitRefund? && s.handlers[ev.h] == Refunding(a.aggregate)
                   && t.orders == s.orders[a.aggregate := order.(status := Refunded)] && t.booked == s.booked - order.seats
  {
  }

  lemma OneOrderStep(s: State, ev: Event)
    requires OrdersHaveRequests(s) && OneOrderEach(s)
    ensures OrdersHaveRequests(Step(s, ev)) && OneOrderEach(Step(s, ev))
  {
    OrdersChange(s, ev);
    RequestKeysAfter(s, ev);
    var s' := Step(s, ev);
    forall o, p | SameRequest(s', o, p)
      ensures o == p
    {
      if o in s.orders && p in s.orders {
        assert SameRequest(s, o, p);
      }
    }
  }

  lemma OrderExistsAfter(s: State, ev: Event, r: RequestId)
    ensures OrderExists(Step(s, ev).orders, r) <==>
            OrderExists(s.orders, r)
            || (AddedBy(s, ev).Added? && AddedBy(s, ev).kind == OW.OrderCompleted && s.handlers[ev.h].request == r)
  {
    OrdersChange(s, ev);
    var s' := Step(s, ev);
    if OrderExists(s.orders, r) {
      var o :| o in s.orders && s.orders[o].request == r;
      assert o in s'.orders && s'.orders[o].request == r;
    }
    if AddedBy(s, ev).Added? && AddedBy(s, ev).kind == OW.OrderCompleted {
      var o := AddedBy(s, ev).aggregate;
      assert o in s'.orders && s'.orders[o].request == s.handlers[ev.h].request;
    }
  }

  lemma SucceededStep(s: State, ev: Event)
    requires OrdersHaveRequests(s) && SucceededHaveOrders(s)
    ensures SucceededHaveOrders(Step(s, ev))
  {
    RequestKeysAfter(s, ev);
    var s' := Step(s, ev);
    forall r | r in s'.requests
      ensures s'.requests[r].status == Succeeded <==> OrderExists(s'.orders, r)
    {
      OrderExistsAfter(s, ev, r);
      if r in s.requests {
        StatusAfter(s, ev, r);
      } else {
        NewIsPending(s, ev, r);
        assert !OrderExists(s.orders, r);
      }
    }
  }

  lemma NewIsPending(s: State, ev: Event, r: RequestId)
    requires r !in s.requests && r in Step(s, ev).requests
    ensures ev.RequestPayment? && ev.r == r && Step(s, ev).requests[r].status == Pending
  {
  }

  lemma OrdersAcceptedStep(s: State, ev: Event)
    requires DeliveriesAccepted(s) && OrdersAccepted(s)
    ensures OrdersAccepted(Step(s, ev))
  {
    OrdersChange(s, ev);
    var s' := Step(s, ev);
    forall o | o in s'.orders
      ensures OrderAccepted(s', o)
    {
      if o in s.orders {
        assert OrderAccepted(s, o);
      }
      assert ev.CommitCheckout? && ev.h in s.handlers ==> PcAccepted(s, s.handlers[ev.h]);
      assert ev.CommitRefund? && ev.h in s.handlers ==> PcAccepted(s, s.handlers[ev.h]);
      AcceptedKept(s, ev, OW.PaymentRequested, s'.orders[o].request);
      if s'.orders[o].status == Refunded {
        AcceptedKept(s, ev, OW.CancellationRequested, o);
      }
    }
  }

  lemma OutboxInvStep(s: State, ev: Event)
    requires OW.Inv(s.outbox)
    ensures OW.Inv(Step(s, ev).outbox)
  {
    var a := AddedBy(s, ev);
    if ev.Outbox? {
      OW.InvStep(s.outbox, ev.ev);
    } else if a.Added? {
      OW.InvStep(s.outbox, OW.Insert(a.e, a.kind, a.aggregate));
    }
  }

  /** How a request leaves `pending`: its event is marked published, a handler fails it, or it gets its order. */
  lemma LeavesPending(s: State, ev: Event, r: RequestId)
    requires OW.Inv(s.outbox) && DeliveriesAccepted(s)
    requires r in s.requests && s.requests[r].status == Pending && Step(s, ev).requests[r].status != Pending
    ensures Accepted(s, OW.PaymentRequested, r)
  {
    if ev.Outbox? {
      var w := ev.ev.w;
      assert OW.PcOk(s.outbox, s.outbox.workers[w]);
      assert EventFor(s, s.outbox.workers[w].id, OW.PaymentRequested, r);
    } else {
      assert PcAccepted(s, s.handlers[ev.h]);
    }
  }

  /** A row is published only as its request leaves `pending`. */
  lemma StaysPending(s: State, ev: Event, r: RequestId, e: OW.EventId)
    requires r in s.requests && Step(s, ev).requests[r].status == Pending
    requires EventFor(s, e, OW.PaymentRequested, r) && !s.outbox.rows[e].published
    ensures s.requests[r].status == Pending && !Step(s, ev).outbox.rows[e].published
  {
    StatusAfter(s, ev, r);
  }

  lemma NewEventUnpublished(s: State, ev: Event)
    requires AddedBy(s, ev).Added?
    ensures !Step(s, ev).outbox.rows[AddedBy(s, ev).e].published
  {
  }

  lemma StatusesStep(s: State, ev: Event)
    requires OW.Inv(s.outbox) && DeliveriesAccepted(s) && StatusesKnown(s) && RequestEvents(s)
    ensures StatusesKnown(Step(s, ev))
  {
    var s' := Step(s, ev);
    forall r | r in s'.requests
      ensures StatusKnown(s', r)
    {
      if r in s.requests {
        assert StatusKnown(s, r);
        StatusAfter(s, ev, r);
        if s'.requests[r].status != Pending {
          if s.requests[r].status == Pending { LeavesPending(s, ev, r); }
          AcceptedKept(s, ev, OW.PaymentRequested, r);
        }
      } else {
        NewIsPending(s, ev, r);
        assert OneEventIff(s, OW.PaymentRequested, r, r in s.requests);
      }
      if s'.requests[r].status == Pending {
        forall e | EventFor(s', e, OW.PaymentRequested, r)
          ensures !s'.outbox.rows[e].published
        {
          EventsAfter(s, ev, e, OW.PaymentRequested, r);
          if EventFor(s, e, OW.PaymentRequested, r) {
            assert HasEvent(s, OW.PaymentRequested, r);
            StaysPending(s, ev, r, e);
          } else {
            NewEventUnpublished(s, ev);
          }
        }
      }
    }
  }

  // ------------------------------------------------------------------- seats

  /** A refund is about to be booked for `o`. */
  predicate Refunds(s: State, ev: Event, o: OrderId) {
    AddedBy(s, ev).Added? && AddedBy(s, ev).kind == OW.TicketCancelled && AddedBy(s, ev).aggregate == o
  }

  /** A refund is about to be booked for an order, and another live order claims one of its seats. */
  ghost predicate RefundsSharedSeat(s: State, ev: Event) {
    exists o, p, seat :: Refunds(s, ev, o) && o in s.orders && seat in s.orders[o].seats && p != o && Claims(s, p, seat)
  }

  lemma CoveredAfter(s: State, ev: Event, seat: SeatId)
    ensures var a := AddedBy(s, ev);
            if a.Added? && a.kind == OW.OrderCompleted then
              Covered(Step(s, ev), seat) <==> Covered(s, seat) || seat in s.requests[s.handlers[ev.h].request].seats
            else if a.Added? && a.kind == OW.TicketCancelled then
              Covered(Step(s, ev), seat) <==> exists p :: p != a.aggregate && Claims(s, p, seat)
            else Covered(Step(s, ev), seat) <==> Covered(s, seat)
  {
    OrdersChange(s, ev);
    var a, s' := AddedBy(s, ev), Step(s, ev);
    assert forall p :: p in s.orders && !(a.Added? && a.aggregate == p && a.kind == OW.TicketCancelled) ==>
      (Claims(s, p, seat) <==> Claims(s', p, seat));
    if a.Added? && a.kind == OW.OrderCompleted {
      assert Claims(s', a.aggregate, seat) <==> seat in s.requests[s.handlers[ev.h].request].seats;
    }
    if a.Added? && a.kind == OW.TicketCancelled {
      assert !Claims(s', a.aggregate, seat);
    }
    if Covered(s', seat) {
      var p :| p in s'.orders && Claims(s', p, seat);
      assert p in s.orders ==> Claims(s, p, seat);
    }
  }

  lemma BookedStep(s: State, ev: Event)
    requires BookedCovered(s)
    ensures BookedCovered(Step(s, ev))
  {
    OrdersChange(s, ev);
    var a, s' := AddedBy(s, ev), Step(s, ev);
    forall seat | seat in s'.booked
      ensures Covered(s', seat)
    {
      CoveredAfter(s, ev, seat);
      if a.Added? && a.kind == OW.TicketCancelled {
        var p :| p in s.orders && Claims(s, p, seat);
        assert p != a.aggregate;
      }
    }
  }

  lemma InvStep(s: State, ev: Event)
    requires Inv(s)
    ensures Inv(Step(s, ev))
  {
    EventsStep(s, ev);
    CancelEventsStep(s, ev);
    OneOrderStep(s, ev);
    SucceededStep(s, ev);
    KeysStep(s, ev);
    DeliveriesStep(s, ev);
    OrdersAcceptedStep(s, ev);
    OutboxInvStep(s, ev);
    StatusesStep(s, ev);
    BookedStep(s, ev);
  }

  lemma {:induction false} InvRun(now: int, run: seq<Event>)
    ensures Inv(Exec(Init(now), run))
  {
    if run != [] {
      InvRun(now, run[..|run| - 1]);
      InvStep(Exec(Init(now), run[..|run| - 1]), run[|run| - 1]);
    }
  }

  // ---------------------------------------------------------------- theorems

  /** A payment request's status only rises: pending, processing, failed, succeeded. */
  lemma {:induction false} RequestStatusRises(s: State, more: seq<Event>, r: RequestId)
    requires r in s.requests
    ensures r in Exec(s, more).requests
    ensures RequestRank(s.requests[r].status) <= RequestRank(Exec(s, more).requests[r].status)
  {
    if more != [] {
      RequestStatusRises(s, more[..|more| - 1], r);
      StatusAfter(Exec(s, more[..|more| - 1]), more[|more| - 1], r);
    }
  }

  /** In every run a request has succeeded exactly when it has an order, and never has two,
      whatever is delivered twice and whatever a handler could not read. */
  lemma SucceededIffOneOrder(now: int, run: seq<Event>)
    ensures SucceededHaveOrders(Exec(Init(now), run)) && OneOrderEach(Exec(Init(now), run))
  {
    InvRun(now, run);
  }

  /** An order exists only for a payment message the broker took, and is refunded only for a
      cancellation message the broker took. */
  lemma OrdersWereAskedFor(now: int, run: seq<Event>)
    ensures OrdersAccepted(Exec(Init(now), run))
  {
    InvRun(now, run);
  }

  /** A request is past `pending` only after the broker took its message, and always once its event
      is published, so `processing` and `failed` are never seen for a message nobody could receive. */
  lemma StatusTracksMessage(now: int, run: seq<Event>)
    ensures StatusesKnown(Exec(Init(now), run))
  {
    InvRun(now, run);
  }

  /** A seat marked booked is always claimed by an order that was not refunded. */
  lemma BookedSeatsHaveOrders(now: int, run: seq<Event>)
    ensures BookedCovered(Exec(Init(now), run))
  {
    InvRun(now, run);
  }

  /** The converse can be lost, because the transactions write seat rows whatever they hold: when
      the booked seats are exactly the claimed ones, they stay so unless a refund is booked for an
      order one of whose seats a second live order claims. */
  lemma SeatsExactStepIff(s: State, ev: Event)
    requires SeatsExact(s)
    ensures SeatsExact(Step(s, ev)) <==> !RefundsSharedSeat(s, ev)
  {
    OrdersChange(s, ev);
    var a, s' := AddedBy(s, ev), Step(s, ev);
    forall seat
      ensures (seat in s'.booked <==> Covered(s', seat)) <==>
              !(a.Added? && a.kind == OW.TicketCancelled && seat in s.orders[a.aggregate].seats && exists p :: p != a.aggregate && Claims(s, p, seat))
    {
      SeatExactAfter(s, ev, seat);
    }
    if !SeatsExact(s') {
      var seat :| !(seat in s'.booked <==> Covered(s', seat));
      assert Refunds(s, ev, a.aggregate);
    }
    if RefundsSharedSeat(s, ev) {
      var o, p, seat :| Refunds(s, ev, o) && o in s.orders && seat in s.orders[o].seats && p != o && Claims(s, p, seat);
      assert !(seat in s'.booked <==> Covered(s', seat));
    }
  }

  ghost predicate ExactAfter(now: int, run: seq<Event>, n: nat)
    requires n <= |run|
  {
    SeatsExact(Exec(Init(now), run[..n]))
  }

  ghost predicate SharedRefundAt(now: int, run: seq<Event>, k: nat)
    requires k < |run|
  {
    RefundsSharedSeat(Exec(Init(now), run[..k]), run[k])
  }

  lemma ExactAfterStep(now: int, run: seq<Event>, k: nat)
    requires k < |run| && ExactAfter(now, run, k)
    ensures ExactAfter(now, run, k + 1) <==> !SharedRefundAt(now, run, k)
  {
    assert run[..k + 1][..k] == run[..k];
    SeatsExactStepIff(Exec(Init(now), run[..k]), run[k]);
  }

  lemma {:induction false} ExactUpTo(now: int, run: seq<Event>, n: nat)
    requires n <= |run| && forall k: nat :: k < n ==> !SharedRefundAt(now, run, k)
    ensures ExactAfter(now, run, n)
  {
    if n > 0 {
      ExactUpTo(now, run, n - 1);
      ExactAfterStep(now, run, n - 1);
    }
  }

  /** Over every run: the booked seats are always exactly the claimed ones if and only if no refund
      is booked for an order that shares a seat with a second live one. */
  lemma SeatsExactInRunsIff(now: int, run: seq<Event>)
    ensures (forall n: nat :: n <= |run| ==> ExactAfter(now, run, n)) <==> (forall k: nat :: k < |run| ==> !SharedRefundAt(now, run, k))
  {
    if forall n: nat :: n <= |run| ==> ExactAfter(now, run, n) {
      forall k: nat | k < |run|
        ensures !SharedRefundAt(now, run, k)
      {
        assert ExactAfter(now, run, k) && ExactAfter(now, run, k + 1);
        ExactAfterStep(now, run, k);
      }
    }
    if forall k: nat :: k < |run| ==> !SharedRefundAt(now, run, k) {
      forall n: nat | n <= |run|
        ensures ExactAfter(now, run, n)
      {
        ExactUpTo(now, run, n);
      }
    }
  }

  // -------------------------------------------------------------- double sales

  /** No seat is claimed by two live orders. */
  ghost predicate SoldOnce(s: State) {
    forall o, p, seat :: Claims(s, o, seat) && Claims(s, p, seat) ==> o == p
  }

  /** A checkout is about to be booked for a request one of whose seats a live order claims. */
  ghost predicate BooksSharedSeat(s: State, ev: Event) {
    && AddedBy(s, ev).Added? && AddedBy(s, ev).kind == OW.OrderCompleted
    && exists p, seat :: Claims(s, p, seat) && seat in s.requests[s.handlers[ev.h].request].seats
  }

  /** Who claims a seat after a step: who did before, or the order just booked. */
  lemma ClaimsAfter(s: State, ev: Event, o: OrderId, seat: SeatId)
    requires Claims(Step(s, ev), o, seat)
    ensures Claims(s, o, seat)
            || (AddedBy(s, ev).Added? && AddedBy(s, ev).kind == OW.OrderCompleted && AddedBy(s, ev).aggregate == o
                && seat in s.requests[s.handlers[ev.h].request].seats)
  {
    OrdersChange(s, ev);
  }

  /** A seat comes to be sold twice if and only if a checkout is booked for a request that shares
      a seat with a live order. */
  lemma SoldOnceStepIff(s: State, ev: Event)
    requires SoldOnce(s)
    ensures SoldOnce(Step(s, ev)) <==> !BooksSharedSeat(s, ev)
  {
    OrdersChange(s, ev);
    var s' := Step(s, ev);
    if BooksSharedSeat(s, ev) {
      var p, seat :| Claims(s, p, seat) && seat in s.requests[s.handlers[ev.h].request].seats;
      var o := AddedBy(s, ev).aggregate;
      assert Claims(s', o, seat) && Claims(s', p, seat) && o != p;
    } else {
      forall o, p, seat | Claims(s', o, seat) && Claims(s', p, seat)
        ensures o == p
      {
        ClaimsAfter(s, ev, o, seat);
        ClaimsAfter(s, ev, p, seat);
      }
    }
  }

  ghost predicate SoldOnceAfter(now: int, run: seq<Event>, n: nat)
    requires n <= |run|
  {
    SoldOnce(Exec(Init(now), run[..n]))
  }

  ghost predicate SharedSaleAt(now: int, run: seq<Event>, k: nat)
    requires k < |run|
  {
    BooksSharedSeat(Exec(Init(now), run[..k]), run[k])
  }

  lemma SoldOnceAfterStep(now: int, run: seq<Event>, k: nat)
    requires k < |run| && SoldOnceAfter(now, run, k)
    ensures SoldOnceAfter(now, run, k + 1) <==> !SharedSaleAt(now, run, k)
  {
    assert run[..k + 1][..k] == run[..k];
    SoldOnceStepIff(Exec(Init(now), run[..k]), run[k]);
  }

  lemma {:induction false} SoldOnceUpTo(now: int, run: seq<Event>, n: nat)
    requires n <= |run| && forall k: nat :: k < n ==> !SharedSaleAt(now, run, k)
    ensures SoldOnceAfter(now, run, n)
  {
    if n > 0 {
      SoldOnceUpTo(now, run, n - 1);
      SoldOnceAfterStep(now, run, n - 1);
    }
  }

  /** Over every run: no seat is ever claimed by two live orders if and only if no checkout is
      booked for a request that shares a seat with one. */
  lemma SoldOnceInRunsIff(now: int, run: seq<Event>)
    ensures (forall n: nat :: n <= |run| ==> SoldOnceAfter(now, run, n)) <==> (forall k: nat :: k < |run| ==> !SharedSaleAt(now, run, k))
  {
    if forall n: nat :: n <= |run| ==> SoldOnceAfter(now, run, n) {
      forall k: nat | k < |run|
        ensures !SharedSaleAt(now, run, k)
      {
        assert SoldOnceAfter(now, run, k) && SoldOnceAfter(now, run, k + 1);
        SoldOnceAfterStep(now, run, k);
      }
    }
    if forall k: nat :: k < |run| ==> !SharedSaleAt(now, run, k) {
      forall n: nat | n <= |run|
        ensures SoldOnceAfter(now, run, n)
      {
        SoldOnceUpTo(now, run, n);
      }
    }
  }

  lemma SeatExactAfter(s: State, ev: Event, seat: SeatId)
    requires SeatsExact(s)
    ensures var a, s' := AddedBy(s, ev), Step(s, ev);
            (seat in s'.booked <==> Covered(s', seat)) <==>
            !(a.Added? && a.kind == OW.TicketCancelled && a.aggregate in s.orders && seat in s.orders[a.aggregate].seats
              && exists p :: p != a.aggregate && Claims(s, p, seat))
  {
    OrdersChange(s, ev);
    CoveredAfter(s, ev, seat);
    var a := AddedBy(s, ev);
    if a.Added? && a.kind == OW.TicketCancelled && seat !in s.orders[a.aggregate].seats {
      assert !Claims(s, a.aggregate, seat);
      if Covered(s, seat) {
        var p :| p in s.orders && Claims(s, p, seat);
        assert p != a.aggregate;
      }
    }
  }

  /** Payment requests and `payment.requested` events match one to one, and so do orders and
      `OrderCompleted` events. */
  lemma EventsMatchRows(now: int, run: seq<Event>)
    ensures RequestEvents(Exec(Init(now), run)) && OrderEvents(Exec(Init(now), run))
  {
    InvRun(now, run);
  }

  /** One user's idempotency key names at most one payment request. */
  lemma IdempotencyKeyUnique(now: int, run: seq<Event>)
    ensures KeysUnique(Exec(Init(now), run))
  {
    InvRun(now, run);
  }

  lemma OrderRankStep(s: State, ev: Event, o: OrderId)
    requires o in s.orders
    ensures o in Step(s, ev).orders && OrderRank(s.orders[o].status) <= OrderRank(Step(s, ev).orders[o].status)
  {
    OrdersChange(s, ev);
  }

  /** An order's status only rises: completed, cancelling, refunded. */
  lemma {:induction false} OrderStatusRises(now: int, run: seq<Event>, more: seq<Event>, o: OrderId)
    requires o in Exec(Init(now), run).orders
    ensures var s, t := Exec(Init(now), run), Exec(Exec(Init(now), run), more);
            o in t.orders && OrderRank(s.orders[o].status) <= OrderRank(t.orders[o].status)
  {
    InvRun(now, run);
    OrderRises(Exec(Init(now), run), more, o);
  }

  lemma {:induction false} OrderRises(s: State, more: seq<Event>, o: OrderId)
    requires Inv(s) && o in s.orders
    ensures Inv(Exec(s, more)) && o in Exec(s, more).orders
    ensures OrderRank(s.orders[o].status) <= OrderRank(Exec(s, more).orders[o].status)
  {
    if more != [] {
      OrderRises(s, more[..|more| - 1], o);
      OrderRankStep(Exec(s, more[..|more| - 1]), more[|more| - 1], o);
      InvStep(Exec(s, more[..|more| - 1]), more[|more| - 1]);
    }
  }

  /** However many cancel requests race and however often messages are redelivered, an order
      has exactly one cancellation event once it has left `completed`, and none before. */
  lemma OneCancellationEvent(now: int, run: seq<Event>, o: OrderId)
    ensures OneEventIff(Exec(Init(now), run), OW.CancellationRequested, o, LeftCompleted(Exec(Init(now), run), o))
  {
    InvRun(now, run);
  }

  // -------------------------------------------------------- the look at the locks

  /** The step is a handler's look at the locks for request r, with this answer. */
  predicate LooksFor(s: State, ev: Event, r: RequestId, held: bool) {
    ev.LooksAtLocks? && ev.held == held && ev.h in s.handlers && s.handlers[ev.h] == Validating(r)
  }

  /** The run so far holds a look at the locks for r with this answer. */
  ghost predicate Looked(now: int, run: seq<Event>, r: RequestId, held: bool) {
    exists k: nat :: LookedAt(now, run, k, r, held)
  }

  predicate LookedAt(now: int, run: seq<Event>, k: nat, r: RequestId, held: bool) {
    k < |run| && LooksFor(Exec(Init(now), run[..k]), run[k], r, held)
  }

  lemma LookedLater(now: int, run: seq<Event>, r: RequestId, held: bool)
    requires run != [] && Looked(now, run[..|run| - 1], r, held)
    ensures Looked(now, run, r, held)
  {
    var k: nat :| LookedAt(now, run[..|run| - 1], k, r, held);
    assert run[..|run| - 1][..k] == run[..k];
    assert LookedAt(now, run, k, r, held);
  }

  lemma LooksNow(now: int, run: seq<Event>, r: RequestId, held: bool)
    requires run != [] && LooksFor(Exec(Init(now), run[..|run| - 1]), run[|run| - 1], r, held)
    ensures Looked(now, run, r, held)
  {
    assert LookedAt(now, run, |run| - 1, r, held);
  }

  /** A handler is committing or failing a request only from a look at the locks with that answer. */
  lemma DecidedBy(s: State, ev: Event, h: HandlerId, r: RequestId)
    requires h in Step(s, ev).handlers
    ensures Step(s, ev).handlers[h] == Committing(r) ==>
              (h in s.handlers && s.handlers[h] == Committing(r)) || LooksFor(s, ev, r, true)
    ensures Step(s, ev).handlers[h] == Failing(r) ==>
              (h in s.handlers && s.handlers[h] == Failing(r)) || LooksFor(s, ev, r, false)
  {
  }

  /** A request becomes failed only when a handler fails it. */
  lemma FailedBy(s: State, ev: Event, r: RequestId)
    requires r in s.requests && s.requests[r].status != FailedStatus && Step(s, ev).requests[r].status == FailedStatus
    ensures ev.FailRequest? && ev.h in s.handlers && s.handlers[ev.h] == Failing(r)
  {
  }

  ghost predicate HandlersLooked(now: int, run: seq<Event>) {
    var s := Exec(Init(now), run);
    forall h :: h in s.handlers ==>
      && (s.handlers[h].Committing? ==> Looked(now, run, s.handlers[h].request, true))
      && (s.handlers[h].Failing? ==> Looked(now, run, s.handlers[h].request, false))
  }

  lemma {:induction false} HandlersHaveLooked(now: int, run: seq<Event>)
    ensures HandlersLooked(now, run)
  {
    if run != [] {
      var n := |run| - 1;
      var s, ev := Exec(Init(now), run[..n]), run[n];
      HandlersHaveLooked(now, run[..n]);
      forall h | h in Step(s, ev).handlers
        ensures Step(s, ev).handlers[h].Committing? ==> Looked(now, run, Step(s, ev).handlers[h].request, true)
        ensures Step(s, ev).handlers[h].Failing? ==> Looked(now, run, Step(s, ev).handlers[h].request, false)
      {
        HandlerHasLooked(now, run, h);
      }
    }
  }

  lemma HandlerHasLooked(now: int, run: seq<Event>, h: HandlerId)
    requires run != [] && HandlersLooked(now, run[..|run| - 1])
    requires h in Step(Exec(Init(now), run[..|run| - 1]), run[|run| - 1]).handlers
    ensures var pc := Step(Exec(Init(now), run[..|run| - 1]), run[|run| - 1]).handlers[h];
            && (pc.Committing? ==> Looked(now, run, pc.request, true))
            && (pc.Failing? ==> Looked(now, run, pc.request, false))
  {
    var s, ev := Exec(Init(now), run[..|run| - 1]), run[|run| - 1];
    var pc := Step(s, ev).handlers[h];
    if pc.Committing? || pc.Failing? {
      DecidedBy(s, ev, h, pc.request);
      if LooksFor(s, ev, pc.request, pc.Committing?) {
        LooksNow(now, run, pc.request, pc.Committing?);
      } else {
        LookedLater(now, run, pc.request, pc.Committing?);
      }
    }
  }

  /** Over every run an order exists only for a request whose seat locks some handler has found in
      place. */
  lemma {:induction false} OrdersHadLocks(now: int, run: seq<Event>, o: OrderId)
    requires o in Exec(Init(now), run).orders
    ensures Looked(now, run, Exec(Init(now), run).orders[o].request, true)
  {
    var n := |run| - 1;
    var s, ev := Exec(Init(now), run[..n]), run[n];
    OrdersChange(s, ev);
    HandlersHaveLooked(now, run[..n]);
    if o in s.orders {
      OrdersHadLocks(now, run[..n], o);
    }
    LookedLater(now, run, Exec(Init(now), run).orders[o].request, true);
  }

  /** And a request ends failed only if some handler has found one of its locks missing. */
  lemma {:induction false} FailedLackedLocks(now: int, run: seq<Event>, r: RequestId)
    requires r in Exec(Init(now), run).requests && Exec(Init(now), run).requests[r].status == FailedStatus
    ensures Looked(now, run, r, false)
  {
    var n := |run| - 1;
    var s, ev := Exec(Init(now), run[..n]), run[n];
    HandlersHaveLooked(now, run[..n]);
    if r !in s.requests {
      NewIsPending(s, ev, r);
    } else if s.requests[r].status == FailedStatus {
      FailedLackedLocks(now, run[..n], r);
      LookedLater(now, run, r, false);
    } else {
      FailedBy(s, ev, r);
      LookedLater(now, run, r, false);
    }
  }

  // ----------------------------------------------------------- undisturbed handlers

  /** A checkout message handled without interruption: nothing happens if the request has an order
      already or asks for no seats; without its locks it ends failed unless it has succeeded; with
      them it gets its order, its seats and its event, unless the database turns the order down. */
  lemma CheckoutAlone(s: State, h: HandlerId, r: RequestId, readable: bool, held: bool, o: OrderId, e: OW.EventId)
    requires h in s.handlers && s.handlers[h] == Delivered(r) && o !in s.orders && e !in s.outbox.rows
    ensures var looked := Step(Step(s, AskOrderExists(h, readable)), LooksAtLocks(h, held));
            var t := if held then Step(looked, CommitCheckout(h, o, e)) else Step(looked, FailRequest(h));
            && t.handlers == s.handlers - {h}
            && if (readable && OrderExists(s.orders, r)) || (r in s.requests && s.requests[r].seats == {}) then t == Done(s, h)
               else if !held then
                 t.orders == s.orders && t.booked == s.booked && t.outbox == s.outbox && t.requests.Keys == s.requests.Keys
                 && (r in s.requests ==> t.requests[r].status == if s.requests[r].status == Succeeded then Succeeded else FailedStatus)
               else if r !in s.requests || OrderExists(s.orders, r) then t == Done(s, h)
               else
                 && t.orders == s.orders[o := Order(r, s.requests[r].seats, Completed)]
                 && t.booked == s.booked + s.requests[r].seats && t.requests[r].status == Succeeded
                 && EventFor(t, e, OW.OrderCompleted, o)
  {
    AskStep(s, h, r, readable);
    var asked := Step(s, AskOrderExists(h, readable));
    if h in asked.handlers {
      LookStep(asked, h, r, held);
      var looked := Step(asked, LooksAtLocks(h, held));
      if held { CommitStep(looked, h, r, o, e); } else { FailStep(looked, h, r); }
      assert Step(looked, if held then CommitCheckout(h, o, e) else FailRequest(h)).handlers == s.handlers - {h};
    }
  }

  lemma AskStep(s: State, h: HandlerId, r: RequestId, readable: bool)
    requires h in s.handlers && s.handlers[h] == Delivered(r)
    ensures Step(s, AskOrderExists(h, readable))
         == if (readable && OrderExists(s.orders, r)) || (r in s.requests && s.requests[r].seats == {}) then Done(s, h)
            else s.(handlers := s.handlers[h := Validating(r)])
  {
  }

  lemma LookStep(s: State, h: HandlerId, r: RequestId, held: bool)
    requires h in s.handlers && s.handlers[h] == Validating(r)
    ensures Step(s, LooksAtLocks(h, held)) == s.(handlers := s.handlers[h := if held then Committing(r) else Failing(r)])
  {
  }

  lemma CommitStep(s: State, h: HandlerId, r: RequestId, o: OrderId, e: OW.EventId)
    requires h in s.handlers && s.handlers[h] == Committing(r) && o !in s.orders && e !in s.outbox.rows
    ensures var t := Step(s, CommitCheckout(h, o, e));
            && t.handlers == s.handlers - {h}
            && if r !in s.requests || OrderExists(s.orders, r) then t == Done(s, h)
               else
                 && t.orders == s.orders[o := Order(r, s.requests[r].seats, Completed)]
                 && t.booked == s.booked + s.requests[r].seats && t.requests[r].status == Succeeded
                 && EventFor(t, e, OW.OrderCompleted, o)
  {
  }

  lemma FailStep(s: State, h: HandlerId, r: RequestId)
    requires h in s.handlers && s.handlers[h] == Failing(r)
    ensures var t := Step(s, FailRequest(h));
            && t == Done(s, h).(requests := t.requests) && t.requests.Keys == s.requests.Keys
            && (r in s.requests ==> t.requests[r].status == if s.requests[r].status == Succeeded then Succeeded else FailedStatus)
  {
  }

  /** A cancel request handled without interruption: a completed order is cancelling and has its
      event; of any other order, or none, nothing is touched and no handler waits. */
  lemma CancelAlone(s: State, h: HandlerId, o: OrderId, e: OW.EventId)
    requires h !in s.handlers && e !in s.outbox.rows
    ensures var begun := Step(s, BeginCancel(h, o));
            var t := Step(begun, CommitCancel(h, e));
            if o in s.orders && s.orders[o].status == Completed then
              && t == s.(orders := s.orders[o := s.orders[o].(status := Cancelling)], outbox := t.outbox)
              && EventFor(t, e, OW.CancellationRequested, o)
            else begun == s && t == s
  {
    if o in s.orders && s.orders[o].status == Completed {
      assert Step(s, BeginCancel(h, o)) == s.(handlers := s.handlers[h := CancelRead(o)]);
      assert s.handlers[h := CancelRead(o)] - {h} == s.handlers;
    }
  }

  /** A cancellation message handled without interruption refunds the order, frees its seats and
      announces it, once more on every delivery. */
  lemma RefundAlone(s: State, h: HandlerId, o: OrderId, e: OW.EventId)
    requires h in s.handlers && s.handlers[h] == Refunding(o) && o in s.orders && e !in s.outbox.rows
    ensures var t := Step(s, CommitRefund(h, e));
            && t.handlers == s.handlers - {h} && t.requests == s.requests
            && t.orders == s.orders[o := s.orders[o].(status := Refunded)] && t.booked == s.booked - s.orders[o].seats
            && EventFor(t, e, OW.TicketCancelled, o)
  {
  }

  predicate Deliverable(outbox: OW.State, e: OW.EventId) {
    && e in outbox.accepted && e in outbox.rows
    && (outbox.rows[e].kind == OW.PaymentRequested || outbox.rows[e].kind == OW.CancellationRequested)
  }

  /** A handler that stops is forgotten, and the tables stay. */
  lemma CrashForgets(s: State, h: HandlerId)
    ensures Step(s, Crash(h)) == s.(handlers := s.handlers - {h})
  {
  }

  /** An accepted message reaches a handler with the row it is about; others reach none. */
  lemma DeliveryIs(s: State, h: HandlerId, e: OW.EventId)
    requires h !in s.handlers
    ensures var t := Step(s, Deliver(h, e));
            && (h in t.handlers <==> Deliverable(s.outbox, e))
            && (h in t.handlers ==> t.handlers[h] == if s.outbox.rows[e].kind == OW.PaymentRequested
                                                     then Delivered(s.outbox.rows[e].aggregate) else Refunding(s.outbox.rows[e].aggregate))
  {
  }

  /** A payment request goes in, with its event, exactly if ids and key are unused. */
  lemma RequestAlone(s: State, r: RequestId, user: int, key: string, seats: set<SeatId>, e: OW.EventId)
    requires r !in s.requests && e !in s.outbox.rows
    ensures var t := Step(s, RequestPayment(r, user, key, seats, e));
            if exists q :: q in s.requests && s.requests[q].user == user && s.requests[q].key == key then t == s
            else t.requests == s.requests[r := Request(user, key, seats, Pending)] && EventFor(t, e, OW.PaymentRequested, r)
                 && !t.outbox.rows[e].published && t.orders == s.orders
  {
  }

  /** A handler that found a lock missing can do nothing but fail the request, or stop. */
  lemma FailingOnlyFails(s: State, ev: Event, h: HandlerId, r: RequestId)
    requires h in s.handlers && s.handlers[h] == Failing(r)
    ensures (h in Step(s, ev).handlers && Step(s, ev).handlers[h] == Failing(r)) || ev == FailRequest(h) || ev == Crash(h)
  {
  }

  /** A published payment request is marked as being processed if it was pending, and only then. */
  lemma PublicationMarks(s: State, w: OW.WorkerId, e: OW.EventId, r: RequestId)
    requires w in s.outbox.workers && s.outbox.workers[w] == OW.Confirmed(e) && EventFor(s, e, OW.PaymentRequested, r)
    requires r in s.requests
    ensures var t := Step(s, Outbox(OW.MarkPublished(w)));
            && t.outbox.rows[e].published && t.requests.Keys == s.requests.Keys
            && t.requests[r].status == if s.requests[r].status == Pending then Processing else s.requests[r].status
  {
  }

  // ------------------------------------- a run that frees a seat sold a second time

  ghost predicate Reachable(s: State, now: int) {
    exists run :: Exec(Init(now), run) == s
  }

  lemma Extend(s: State, now: int, ev: Event)
    requires Reachable(s, now)
    ensures Reachable(Step(s, ev), now)
  {
    var run :| Exec(Init(now), run) == s;
    assert (run + [ev])[..|run|] == run;
    assert Exec(Init(now), run + [ev]) == Step(s, ev);
  }

  /** No time has passed since any row was written. */
  predicate Instant(s: State) {
    forall e :: e in s.outbox.rows ==> s.outbox.rows[e].createdAt == s.outbox.now
  }

  lemma ClaimFirst(s: State, now: int, e: OW.EventId, w: OW.WorkerId) returns (t: State)
    requires Reachable(s, now) && Instant(s) && w !in s.outbox.workers
    requires e in s.outbox.rows && OW.Eligible(s.outbox.rows[e], s.outbox.now)
    ensures Reachable(t, now) && Instant(t) && t == s.(outbox := t.outbox)
    ensures t.outbox.rows == s.outbox.rows[e := OW.ClaimRow(s.outbox.rows[e], s.outbox.now)]
    ensures t.outbox.workers.Keys == s.outbox.workers.Keys + {w} && t.outbox.workers[w].Claimed? && t.outbox.workers[w].id == e
  {
    assert OW.OldestEligibleHere(s.outbox, e);
    Extend(s, now, Outbox(OW.Claim(w, e)));
    t := Step(s, Outbox(OW.Claim(w, e)));
  }

  /** A worker gets a newly written event accepted. */
  lemma Accept(s: State, now: int, e: OW.EventId, w: OW.WorkerId) returns (t: State)
    requires Reachable(s, now) && Instant(s) && w !in s.outbox.workers
    requires e in s.outbox.rows && OW.Eligible(s.outbox.rows[e], s.outbox.now) && OW.RouteFor(s.outbox.rows[e].kind).Some?
    ensures Reachable(t, now) && Instant(t) && t == s.(outbox := t.outbox)
    ensures t.outbox.rows.Keys == s.outbox.rows.Keys && e in t.outbox.accepted
    ensures t.outbox.rows[e].kind == s.outbox.rows[e].kind && t.outbox.rows[e].aggregate == s.outbox.rows[e].aggregate
    ensures t.outbox.workers.Keys == s.outbox.workers.Keys + {w}
  {
    var claimed := ClaimFirst(s, now, e, w);
    Extend(claimed, now, Outbox(OW.Publish(w, OW.Ack)));
    t := Step(claimed, Outbox(OW.Publish(w, OW.Ack)));
  }

  lemma InsertAccepted(s: State, now: int, r: RequestId, seats: set<SeatId>, e: OW.EventId, w: OW.WorkerId) returns (t: State)
    requires Reachable(s, now) && Instant(s)
    requires r !in s.requests && (forall q :: q in s.requests ==> s.requests[q].user != r)
    requires e !in s.outbox.rows && w !in s.outbox.workers
    ensures Reachable(t, now) && Instant(t)
    ensures t == s.(requests := s.requests[r := Request(r, "", seats, Pending)], outbox := t.outbox)
    ensures EventFor(t, e, OW.PaymentRequested, r) && e in t.outbox.accepted
    ensures t.outbox.rows.Keys == s.outbox.rows.Keys + {e} && t.outbox.workers.Keys == s.outbox.workers.Keys + {w}
  {
    assert !KeyUsed(s.requests, r, "");
    Extend(s, now, RequestPayment(r, r, "", seats, e));
    t := Accept(Step(s, RequestPayment(r, r, "", seats, e)), now, e, w);
  }

  lemma Redeliver(s: State, now: int, h: HandlerId, e: OW.EventId, kind: OW.Kind, aggregate: nat) returns (t: State)
    requires Reachable(s, now) && EventFor(s, e, kind, aggregate) && e in s.outbox.accepted && h !in s.handlers
    requires kind == OW.PaymentRequested || kind == OW.CancellationRequested
    ensures Reachable(t, now)
    ensures t == s.(handlers := s.handlers[h := if kind == OW.PaymentRequested then Delivered(aggregate) else Refunding(aggregate)])
  {
    Extend(s, now, Deliver(h, e));
    t := Step(s, Deliver(h, e));
  }

  lemma Validated(s: State, now: int, h: HandlerId, r: RequestId) returns (t: State)
    requires Reachable(s, now) && h in s.handlers && s.handlers[h] == Delivered(r)
    requires r in s.requests && s.requests[r].seats != {} && !OrderExists(s.orders, r)
    ensures Reachable(t, now) && t == s.(handlers := s.handlers[h := Committing(r)])
  {
    Extend(s, now, AskOrderExists(h, true));
    var u := Step(s, AskOrderExists(h, true));
    Extend(u, now, LooksAtLocks(h, true));
    t := Step(u, LooksAtLocks(h, true));
  }

  lemma CommitOnce(s: State, now: int, r: RequestId, f: OW.EventId, o: OrderId) returns (t: State)
    requires Reachable(s, now) && Instant(s) && 0 in s.handlers && s.handlers[0] == Committing(r)
    requires r in s.requests && !OrderExists(s.orders, r) && o !in s.orders && f !in s.outbox.rows
    ensures Reachable(t, now) && Instant(t)
    ensures t == s.(requests := s.requests[r := s.requests[r].(status := Succeeded)],
                    orders := s.orders[o := Order(r, s.requests[r].seats, Completed)],
                    booked := s.booked + s.requests[r].seats, handlers := s.handlers - {0}, outbox := t.outbox)
    ensures t.outbox.rows.Keys == s.outbox.rows.Keys + {f} && t.outbox.workers == s.outbox.workers
  {
    Extend(s, now, CommitCheckout(0, o, f));
    t := Step(s, CommitCheckout(0, o, f));
  }

  /** The handler finds the locks and books the order. */
  lemma Handled(s: State, now: int, r: RequestId, e: OW.EventId, f: OW.EventId, o: OrderId) returns (t: State)
    requires Reachable(s, now) && Instant(s) && r in s.requests && s.requests[r].seats != {} && !OrderExists(s.orders, r)
    requires EventFor(s, e, OW.PaymentRequested, r) && e in s.outbox.accepted
    requires f !in s.outbox.rows && o !in s.orders && 0 !in s.handlers
    ensures Reachable(t, now) && Instant(t)
    ensures t == s.(requests := s.requests[r := s.requests[r].(status := Succeeded)],
                    orders := s.orders[o := Order(r, s.requests[r].seats, Completed)],
                    booked := s.booked + s.requests[r].seats, outbox := t.outbox)
    ensures t.outbox.rows.Keys == s.outbox.rows.Keys + {f} && t.outbox.workers == s.outbox.workers
  {
    var b := Redeliver(s, now, 0, e, OW.PaymentRequested, r);
    var c := Validated(b, now, 0, r);
    t := CommitOnce(c, now, r, f, o);
    assert t.handlers == s.handlers;
  }

  /** A user pays for seats whose locks the processor finds. */
  lemma Book(s: State, now: int, r: RequestId, seats: set<SeatId>, e: OW.EventId, f: OW.EventId, w: OW.WorkerId, o: OrderId) returns (t: State)
    requires Reachable(s, now) && Instant(s)
    requires r !in s.requests && (forall q :: q in s.requests ==> s.requests[q].user != r) && seats != {}
    requires e !in s.outbox.rows && f !in s.outbox.rows && e != f && w !in s.outbox.workers
    requires !OrderExists(s.orders, r) && o !in s.orders && 0 !in s.handlers
    ensures Reachable(t, now) && Instant(t)
    ensures t == s.(requests := s.requests[r := Request(r, "", seats, Succeeded)],
                    orders := s.orders[o := Order(r, seats, Completed)], booked := s.booked + seats, outbox := t.outbox)
    ensures t.outbox.rows.Keys == s.outbox.rows.Keys + {e, f} && t.outbox.workers.Keys == s.outbox.workers.Keys + {w}
  {
    var a := InsertAccepted(s, now, r, seats, e, w);
    t := Handled(a, now, r, e, f, o);
    Overwritten(s.requests, r, Request(r, "", seats, Pending), Request(r, "", seats, Succeeded));
  }

  lemma Overwritten(requests: map<RequestId, Request>, r: RequestId, before: Request, after: Request)
    ensures requests[r := before][r := after] == requests[r := after]
  {
  }

  /** An order is cancelled, and the broker takes the cancellation message. */
  lemma Cancelled(s: State, now: int, o: OrderId, e: OW.EventId, w: OW.WorkerId) returns (t: State)
    requires Reachable(s, now) && Instant(s) && o in s.orders && s.orders[o].status == Completed
    requires e !in s.outbox.rows && w !in s.outbox.workers && 0 !in s.handlers
    ensures Reachable(t, now) && Instant(t)
    ensures t == s.(orders := s.orders[o := s.orders[o].(status := Cancelling)], outbox := t.outbox)
    ensures EventFor(t, e, OW.CancellationRequested, o) && e in t.outbox.accepted
    ensures t.outbox.rows.Keys == s.outbox.rows.Keys + {e} && t.outbox.workers.Keys == s.outbox.workers.Keys + {w}
  {
    var a := CancelAsked(s, now, o, e);
    t := Accept(a, now, e, w);
  }

  lemma CancelAsked(s: State, now: int, o: OrderId, e: OW.EventId) returns (t: State)
    requires Reachable(s, now) && Instant(s) && o in s.orders && s.orders[o].status == Completed
    requires e !in s.outbox.rows && 0 !in s.handlers
    ensures Reachable(t, now) && Instant(t)
    ensures t == s.(orders := s.orders[o := s.orders[o].(status := Cancelling)],
                    outbox := AddEvent(s, e, OW.CancellationRequested, o))
  {
    Extend(s, now, BeginCancel(0, o));
    var a := Step(s, BeginCancel(0, o));
    Extend(a, now, CommitCancel(0, e));
    t := Step(a, CommitCancel(0, e));
    assert t.handlers == s.handlers;
  }

  lemma RefundOnce(s: State, now: int, h: HandlerId, o: OrderId, e: OW.EventId) returns (t: State)
    requires Reachable(s, now) && Instant(s) && o in s.orders && e !in s.outbox.rows
    requires h in s.handlers && s.handlers[h] == Refunding(o)
    ensures Reachable(t, now) && Instant(t)
    ensures t == s.(orders := s.orders[o := s.orders[o].(status := Refunded)], booked := s.booked - s.orders[o].seats,
                    handlers := s.handlers - {h}, outbox := t.outbox)
    ensures t.outbox.rows.Keys == s.outbox.rows.Keys + {e} && t.outbox.workers == s.outbox.workers
  {
    Extend(s, now, CommitRefund(h, e));
    t := Step(s, CommitRefund(h, e));
  }

  lemma RefundedOfTwo(s: State, now: int, o: OrderId, e: OW.EventId, f: OW.EventId) returns (t: State)
    requires Reachable(s, now) && Instant(s) && o in s.orders && f !in s.outbox.rows && s.handlers == map[]
    requires EventFor(s, e, OW.CancellationRequested, o) && e in s.outbox.accepted
    ensures Reachable(t, now) && Instant(t)
    ensures t == s.(orders := s.orders[o := s.orders[o].(status := Refunded)], booked := s.booked - s.orders[o].seats,
                    handlers := map[1 := Refunding(o)], outbox := t.outbox)
    ensures t.outbox.rows.Keys == s.outbox.rows.Keys + {f} && t.outbox.workers == s.outbox.workers
  {
    var once := Redeliver(s, now, 1, e, OW.CancellationRequested, o);
    var twice := Redeliver(once, now, 0, e, OW.CancellationRequested, o);
    t := RefundOnce(twice, now, 0, o, f);
    assert t.handlers == map[1 := Refunding(o)];
  }

  lemma Sold() returns (t: State)
    ensures Reachable(t, 0) && Instant(t)
    ensures t.requests == map[0 := Request(0, "", {7}, Succeeded)] && t.orders == map[0 := Order(0, {7}, Completed)]
    ensures t.handlers == map[] && t.outbox.rows.Keys == {0, 1} && t.outbox.workers.Keys == {0}
  {
    var s := Init(0);
    assert Exec(s, []) == s;
    t := Book(s, 0, 0, {7}, 0, 1, 0, 0);
  }

  /** Seat 7 is sold and refunded, with the same cancellation message in another handler's hands. */
  lemma SoldAndRefunded() returns (t: State)
    ensures Reachable(t, 0) && Instant(t)
    ensures t.requests.Keys == {0} && t.requests[0].user == 0 && t.handlers == map[1 := Refunding(0)]
    ensures t.orders == map[0 := Order(0, {7}, Refunded)]
    ensures t.outbox.rows.Keys == {0, 1, 2, 3} && t.outbox.workers.Keys == {0, 1}
  {
    var sold := Sold();
    var cancelled := Cancelled(sold, 0, 0, 2, 1);
    assert cancelled.orders[0] == Order(0, {7}, Cancelling);
    t := RefundedOfTwo(cancelled, 0, 0, 2, 3);
  }

  /** Once seat 7 is sold again, the second delivery of the first order's cancellation frees it
      under the second order. */
  lemma RedeliveredRefundFreesSeat()
    ensures exists run :: Claims(Exec(Init(0), run), 1, 7) && 7 !in Exec(Init(0), run).booked
  {
    var s := SoldAndRefunded();
    var resold := Book(s, 0, 1, {7}, 4, 5, 2, 1);
    var end := RefundOnce(resold, 0, 1, 0, 6);
    assert Claims(end, 1, 7);
  }

  // ----------------------------------------------------------------- the code

  /** The tables, and the transactions that write them, statement by statement. */
  class Database {
    var requests: map<RequestId, Request>
    var orders: map<OrderId, Order>
    var booked: set<SeatId>
    var outbox: OW.State

    constructor (now: int)
      ensures View(map[]) == Init(now)
    {
      requests, orders, booked, outbox := map[], map[], {}, OW.Init(now);
    }

    /** The tables beside the handlers that are working on them. */
    ghost function View(handlers: map<HandlerId, Pc>): State
      reads this
    {
      State(requests, orders, booked, outbox, handlers)
    }

    method InsertEvent(e: OW.EventId, kind: OW.Kind, aggregate: nat)
      requires e !in outbox.rows
      modifies this`outbox
      ensures outbox == OW.Step(old(outbox), OW.Insert(e, kind, aggregate))
    {
      outbox := outbox.(rows := outbox.rows[e := OW.NewRow(kind, aggregate, outbox.now)]);
    }

    /** The insert of `request_payment`, with fresh ids; `inserted` is its row count. */
    method InsertPaymentRequest(r: RequestId, user: int, key: string, seats: set<SeatId>, e: OW.EventId,
                                ghost handlers: map<HandlerId, Pc>) returns (inserted: bool)
      requires r !in requests && e !in outbox.rows
      modifies this
      ensures inserted <==> !KeyUsed(old(requests), user, key)
      ensures View(handlers) == Step(old(View(handlers)), RequestPayment(r, user, key, seats, e))
    {
      inserted := true;
      var todo := requests.Keys;
      while todo != {}
        invariant todo <= requests.Keys
        invariant inserted <==> forall q :: q in requests.Keys - todo ==> !(requests[q].user == user && requests[q].key == key)
        decreases todo
      {
        var q :| q in todo;
        if requests[q].user == user && requests[q].key == key { inserted := false; }
        todo := todo - {q};
      }
      if inserted {
        requests := requests[r := Request(user, key, seats, Pending)];
        InsertEvent(e, OW.PaymentRequested, r);
      }
    }

    /** `order_exists` on a readable database. */
    method FindOrder(r: RequestId) returns (found: bool)
      ensures found <==> OrderExists(orders, r)
    {
      found := false;
      var todo := orders.Keys;
      while todo != {}
        invariant todo <= orders.Keys
        invariant found <==> exists o :: o in orders.Keys - todo && orders[o].request == r
        decreases todo
      {
        var o :| o in todo;
        if orders[o].request == r { found := true; }
        todo := todo - {o};
      }
    }

    /** `commit_checkout`: the foreign key and the unique index roll it back. */
    method BookCheckout(r: RequestId, o: OrderId, e: OW.EventId,
                        ghost h: HandlerId, ghost handlers: map<HandlerId, Pc>) returns (ok: bool)
      requires o !in orders && e !in outbox.rows
      requires h in handlers && handlers[h] == Committing(r)
      modifies this
      ensures ok <==> r in old(requests) && !OrderExists(old(orders), r)
      ensures View(handlers - {h}) == Step(old(View(handlers)), CommitCheckout(h, o, e))
    {
      var found := FindOrder(r);
      ok := r in requests && !found;
      if ok {
        var seats := requests[r].seats;
        booked := booked + seats;
        orders := orders[o := Order(r, seats, Completed)];
        requests := requests[r := requests[r].(status := Succeeded)];
        InsertEvent(e, OW.OrderCompleted, o);
      }
    }

    /** The status update for a message whose seat locks are gone. */
    method MarkRequestFailed(r: RequestId, ghost h: HandlerId, ghost handlers: map<HandlerId, Pc>)
      requires h in handlers && handlers[h] == Failing(r)
      modifies this`requests
      ensures View(handlers - {h}) == Step(old(View(handlers)), FailRequest(h))
    {
      if r in requests && requests[r].status != Succeeded {
        requests := requests[r := requests[r].(status := FailedStatus)];
      }
    }

    /** The transaction of `cancel_order`. */
    method BookCancelRequest(o: OrderId, e: OW.EventId,
                             ghost h: HandlerId, ghost handlers: map<HandlerId, Pc>) returns (updated: bool)
      requires e !in outbox.rows && h in handlers && handlers[h] == CancelRead(o)
      modifies this
      ensures updated <==> o in old(orders) && old(orders)[o].status == Completed
      ensures View(handlers - {h}) == Step(old(View(handlers)), CommitCancel(h, e))
    {
      updated := o in orders && orders[o].status == Completed;
      if updated {
        orders := orders[o := orders[o].(status := Cancelling)];
        InsertEvent(e, OW.CancellationRequested, o);
      }
    }

    /** `commit_cancellation`: the audit row's foreign key rolls it back without the order. */
    method BookRefund(o: OrderId, e: OW.EventId, ghost h: HandlerId, ghost handlers: map<HandlerId, Pc>) returns (ok: bool)
      requires e !in outbox.rows && h in handlers && handlers[h] == Refunding(o)
      modifies this
      ensures ok <==> o in old(orders)
      ensures View(handlers - {h}) == Step(old(View(handlers)), CommitRefund(h, e))
    {
      ok := o in orders;
      if ok {
        booked := booked - orders[o].seats;
        orders := orders[o := orders[o].(status := Refunded)];
        InsertEvent(e, OW.TicketCancelled, o);
      }
    }
  }
}
